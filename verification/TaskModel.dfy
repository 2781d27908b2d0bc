/** The values that travel through the system: a task's parameters, the results
    published for it, and what a container observes while it supervises a run. */
module TaskModel {

  datatype Option<+T> = None | Some(value: T)

  predicate Distinct<T(==)>(s: seq<T>) {
    forall i, j :: 0 <= i < j < |s| ==> s[i] != s[j]
  }

  datatype BindRule = BindRule(inside: string, outside: string, flags: int)

  /** The parameter half of libsbox::Task. A stream is named by a string: empty
      for the null device, "@name" for a pipe, anything else for a file. */
  datatype Task = Task(
    timeLimitMs: int, wallTimeLimitMs: int, memoryLimitKb: int, fsizeLimitKb: int,
    maxFiles: int, maxThreads: int, needIpc: bool, useStandardBinds: bool,
    stdin: string, stdout: string, stderr: string,
    argv: seq<string>, env: seq<string>, binds: seq<BindRule>)

  /** The result half of libsbox::Task and of the shared task data. */
  datatype Results = Results(
    timeUsageMs: int, timeUsageSysMs: int, timeUsageUserMs: int, wallTimeUsageMs: int,
    memoryUsageKb: int, timeLimitExceeded: bool, wallTimeLimitExceeded: bool,
    exited: bool, exitCode: int, signaled: bool, termSignal: int,
    oomKilled: bool, memoryLimitHit: bool)

  const UNLIMITED := -1
  const PATH_MAX: nat := 4096

  /** What a new libsbox::Task and new shared task data hold. */
  const DEFAULT_TASK := Task(-1, -1, -1, -1, 16, 1, false, true, "", "", "", [], [], [])
  const DEFAULT_RESULTS := Results(0, 0, 0, 0, 0, false, false, false, -1, false, -1, false, false)

  /** What set_task stores in the result fields before a run. */
  const BLANK := Results(-1, -1, -1, -1, -1, false, false, false, -1, false, -1, false, false)

  /** How a process ended, as the two cases of a wait status. */
  datatype Status = Exited(code: int) | Signaled(sig: int)

  /** What the container reads from the kernel about one run. `status` is None
      when the run was stopped by a limit and the slave's status was discarded. */
  datatype Observation = Observation(
    status: Option<Status>, time: int, sys: int, user: int, wall: int,
    memory: int, oom: bool, memoryHit: bool)

  /** A task may run in a permanent container. */
  predicate Eligible(t: Task) {
    !t.needIpc && t.useStandardBinds
  }

  /** The exit-status part of wait_for_slave, written over whatever was there. */
  function WithStatus(r: Results, status: Option<Status>): Results {
    match status
    case None => r
    case Some(Exited(code)) => r.(exited := true, exitCode := code)
    case Some(Signaled(sig)) => r.(signaled := true, termSignal := sig)
  }

  /** The usage part of wait_for_slave, written over whatever was there: a
      limit flag is assigned only when that limit is set. */
  function WithUsage(r: Results, t: Task, o: Observation): Results {
    var r := r.(timeUsageMs := o.time, timeUsageSysMs := o.sys, timeUsageUserMs := o.user,
                wallTimeUsageMs := o.wall, memoryUsageKb := o.memory,
                oomKilled := o.oom, memoryLimitHit := o.memoryHit);
    var r := if t.timeLimitMs == UNLIMITED then r else r.(timeLimitExceeded := o.time > t.timeLimitMs);
    if t.wallTimeLimitMs == UNLIMITED then r
    else r.(wallTimeLimitExceeded := o.wall > t.wallTimeLimitMs)
  }

  /** The verdict a run deserves: a function of its own task and observation only. */
  function Judge(t: Task, o: Observation): Results {
    Results(o.time, o.sys, o.user, o.wall, o.memory,
            t.timeLimitMs != UNLIMITED && o.time > t.timeLimitMs,
            t.wallTimeLimitMs != UNLIMITED && o.wall > t.wallTimeLimitMs,
            o.status.Some? && o.status.value.Exited?,
            if o.status.Some? && o.status.value.Exited? then o.status.value.code else -1,
            o.status.Some? && o.status.value.Signaled?,
            if o.status.Some? && o.status.value.Signaled? then o.status.value.sig else -1,
            o.oom, o.memoryHit)
  }

  /** The exit fields of the results of a program that ended so; None: it was
      stopped, and how it ended is not reported. */
  predicate EndsAs(r: Results, end: Option<Status>) {
    match end
    case None => !r.exited && r.exitCode == -1 && !r.signaled && r.termSignal == -1
    case Some(Exited(code)) => r.exited && r.exitCode == code && !r.signaled && r.termSignal == -1
    case Some(Signaled(sig)) => !r.exited && r.exitCode == -1 && r.signaled && r.termSignal == sig
  }

  /** Field by field, what a verdict says. */
  lemma JudgeSays(t: Task, o: Observation)
    ensures var r := Judge(t, o);
            && r.timeUsageMs == o.time && r.timeUsageSysMs == o.sys && r.timeUsageUserMs == o.user
            && r.wallTimeUsageMs == o.wall && r.memoryUsageKb == o.memory
            && r.oomKilled == o.oom && r.memoryLimitHit == o.memoryHit && EndsAs(r, o.status)
            && (r.timeLimitExceeded <==> t.timeLimitMs != -1 && o.time > t.timeLimitMs)
            && (r.wallTimeLimitExceeded <==> t.wallTimeLimitMs != -1 && o.wall > t.wallTimeLimitMs)
  {
  }

  /** The fields that a run of `t` may leave untouched are blank in `r`. */
  predicate BlankFor(r: Results, t: Task) {
    && !r.exited && r.exitCode == -1 && !r.signaled && r.termSignal == -1
    && (t.timeLimitMs == UNLIMITED ==> !r.timeLimitExceeded)
    && (t.wallTimeLimitMs == UNLIMITED ==> !r.wallTimeLimitExceeded)
  }

  lemma PublishOverBlank(r: Results, t: Task, o: Observation)
    requires BlankFor(r, t)
    ensures WithUsage(WithStatus(r, o.status), t, o) == Judge(t, o)
  {
  }

  lemma PublishProbe(r: Results, t: Task, o: Observation)
    requires o.status == None && WithUsage(WithStatus(r, o.status), t, o) == Judge(t, o)
    ensures BlankFor(r, t)
  {
  }

  /** Publishing over results `r` gives the deserved verdict for every run of `t`
      exactly when the fields that a run may leave untouched were blank before:
      this is what the reset in set_task is for. */
  lemma PublishIsVerdictIff(r: Results, t: Task)
    ensures (forall o: Observation :: WithUsage(WithStatus(r, o.status), t, o) == Judge(t, o)) <==> BlankFor(r, t)
  {
    hide WithUsage, WithStatus, Judge, BlankFor;
    if BlankFor(r, t) {
      forall o: Observation ensures WithUsage(WithStatus(r, o.status), t, o) == Judge(t, o) {
        PublishOverBlank(r, t, o);
      }
    } else {
      var probe := Observation(None, 0, 0, 0, 0, 0, false, false);
      if WithUsage(WithStatus(r, probe.status), t, probe) == Judge(t, probe) {
        PublishProbe(r, t, probe);
      }
    }
  }

  /** A process cannot both exit and be killed, and each flag says exactly that the
      reported usage is over a limit that is set. */
  predicate FlagsRight(t: Task, r: Results) {
    && !(r.exited && r.signaled)
    && (r.timeLimitExceeded <==> t.timeLimitMs != -1 && r.timeUsageMs > t.timeLimitMs)
    && (r.wallTimeLimitExceeded <==> t.wallTimeLimitMs != -1 && r.wallTimeUsageMs > t.wallTimeLimitMs)
  }

  /** The verdict says why the run is over. */
  predicate NamesReason(r: Results) {
    r.exited || r.signaled || r.timeLimitExceeded || r.wallTimeLimitExceeded
  }

  lemma JudgedFlagsAreRight(t: Task, o: Observation)
    ensures FlagsRight(t, Judge(t, o))
  {
  }

  /** The pipe a stream name denotes, if any. */
  function PipeOf(stream: string): (r: Option<string>) {
    if |stream| > 0 && stream[0] == '@' then Some(stream[1..]) else None
  }

  const STDOUT_ALIAS := "_stdout"

  /** The pipe set_task asks the worker for to wire one stream, if any: on stderr
      the name _stdout is an alias for standard output and not a pipe. */
  function StreamPipes(stream: string, isStderr: bool): set<string> {
    match PipeOf(stream)
    case Some(p) => if isStderr && p == STDOUT_ALIAS then {} else {p}
    case None => {}
  }

  function PipeNames(t: Task): set<string> {
    StreamPipes(t.stdin, false) + StreamPipes(t.stdout, false) + StreamPipes(t.stderr, true)
  }

  /** The task wires one of its streams to the pipe `p`. */
  predicate Names(t: Task, p: string) {
    t.stdin == "@" + p || t.stdout == "@" + p || (t.stderr == "@" + p && p != "_stdout")
  }

  lemma PipeOfIff(stream: string, p: string)
    ensures PipeOf(stream) == Some(p) <==> stream == "@" + p
    ensures PipeOf(stream) == None <==> stream == "" || stream[0] != '@'
    ensures ("@" + p)[1..] == p
  {
    if PipeOf(stream) == Some(p) {
      assert stream == [stream[0]] + stream[1..];
    }
    assert ("@" + p)[1..] == p;
  }

  lemma StreamPipesIff(stream: string, isStderr: bool, p: string)
    ensures p in StreamPipes(stream, isStderr) <==> stream == "@" + p && !(isStderr && p == "_stdout")
  {
    PipeOfIff(stream, p);
  }

  lemma PipeNamesIff(t: Task, p: string)
    ensures p in PipeNames(t) <==> Names(t, p)
  {
    hide StreamPipes;
    StreamPipesIff(t.stdin, false, p);
    StreamPipesIff(t.stdout, false, p);
    StreamPipesIff(t.stderr, true, p);
  }

  /** All pipes that the tasks of a request name. */
  function Wanted(tasks: seq<Task>): set<string> {
    if tasks == [] then {} else Wanted(tasks[..|tasks| - 1]) + PipeNames(tasks[|tasks| - 1])
  }

  lemma NothingIsWanted()
    ensures Wanted([]) == {}
  {
  }

  lemma WantedOfPrefix(tasks: seq<Task>, i: nat)
    requires i < |tasks|
    ensures Wanted(tasks[..i + 1]) == Wanted(tasks[..i]) + PipeNames(tasks[i])
  {
    assert tasks[..i + 1][..i] == tasks[..i];
  }

  lemma {:induction false} WantedIff(tasks: seq<Task>, p: string)
    ensures p in Wanted(tasks) <==> exists i :: 0 <= i < |tasks| && Names(tasks[i], p)
  {
    hide Names, PipeNames;
    if tasks != [] {
      var front, last := tasks[..|tasks| - 1], tasks[|tasks| - 1];
      WantedIff(front, p);
      PipeNamesIff(last, p);
      if i :| 0 <= i < |tasks| && Names(tasks[i], p) {
        assert i == |front| || front[i] == tasks[i];
      }
      if i :| 0 <= i < |front| && Names(front[i], p) {
        assert tasks[i] == front[i];
      }
    }
  }
}
