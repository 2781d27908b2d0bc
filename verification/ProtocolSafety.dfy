/** What the protocol guarantees in every reachable state and over every run:
    for any number of requests and tasks, and any interleaving of the worker,
    its containers and their slaves. */
module ProtocolSafety {
  import opened TaskModel
  import opened Protocol
  import opened ProtocolInvariant
  import opened ContainerPreservation
  import opened StartPreservation
  import opened WorkerPreservation
  import opened ProtocolPreservation

  lemma ReachableInv(w: Worker)
    requires Reachable(w)
    ensures Inv(w)
  {
    hide Inv;
    var actions :| Run(INITIAL, actions) == Some(w);
    InvariantHolds(actions, w);
  }

  // -------------------------------------------- resetting a shared barrier

  /** m has called wait on the run-start barrier and has not returned: it may be
      waiting, released, or dead. */
  predicate InsideStart(w: Worker, m: Member) {
    match m
    case TheWorker => w.pc.WStartWait?
    case ContainerOf(h) => h < |w.conts| && w.conts[h].pc.CRunWait?
    case SlaveOf(h) => h < |w.conts| && w.conts[h].slave.Slave? && w.conts[h].slave.pc.SWait?
  }

  /** Whenever the worker resets the run-start barrier, everybody who ever entered
      it has returned from it. */
  lemma ResetFindsNobodyInside(w: Worker)
    requires Reachable(w) && w.pc == WReset
    ensures forall m :: !InsideStart(w, m)
    ensures w.run.arrived == {}
  {
    hide Shape, Staged;
    ReachableInv(w);
    NobodyInsideAtReset(w);
  }

  /** Whenever the worker drops a temporary container, and with it the container's
      own barrier, neither party is inside that barrier. */
  lemma DestroyFindsNobodyInside(w: Worker, j: nat)
    requires Reachable(w) && w.pc == WReturnId(|w.temporary|) && j < |w.temporary|
    ensures w.temporary[j] < |w.conts|
    ensures var c := w.conts[w.temporary[j]];
            c.bar.arrived == {} && c.pc == CExited && (c.slave.Slave? ==> c.slave.end.Some?)
  {
    hide AtStage;
    ReachableInv(w);
    var h := w.temporary[j];
    assert h in w.temporary;
    RetiredIsUnused(w, h);
  }

  // --------------------------------- a slave that dies before it has started

  /** The container's slave ended without having left the run-start barrier, or
      after it reported an error: the error flag is up and nobody is left to
      take it down. */
  predicate Doomed(c: Container) {
    && c.slave.Slave? && c.slave.end.Some? && c.td.error
    && !(Preparing(c.slave.pc) || c.slave.pc.SExec?)
    && (c.pc == CRunArrive || c.pc.CRunWait? || c.pc == CSupervise || c.pc == CPublish || c.pc == CCheck)
  }

  /** A slave that is killed before it has cleared the flag dooms its container. */
  lemma EarlyDeathDooms(w: Worker, h: nat)
    requires Reachable(w) && h < |w.conts| && w.conts[h].slave.Slave? && w.conts[h].slave.end.Some?
    requires w.conts[h].slave.pc == SArrive || w.conts[h].slave.pc.SWait? || w.conts[h].slave.pc == SClear
    ensures Doomed(w.conts[h])
  {
    hide Shape, RunOk, JudgedIn;
    ReachableInv(w);
    assert !Settled(w.conts[h].slave);
    WorkIsAssigned(w, h);
    var i :| 0 <= i < |w.containers| && w.containers[i] == h;
    assert AtStage(w.conts[h], StageAt(w.pc, i), ContextOf(w, i));
    assert Working(w.conts[h], ContextOf(w, i));
  }

  lemma DoomedIsWorking(w: Worker, h: nat) returns (i: nat)
    requires Staged(w) && h < |w.conts| && Doomed(w.conts[h])
    ensures i < |w.containers| && w.containers[i] == h && Working(w.conts[h], ContextOf(w, i))
    ensures StageAt(w.pc, i).Handing? || StageAt(w.pc, i).Lent? || StageAt(w.pc, i).Fetching?
  {
    hide JudgedIn;
    assert !Settled(w.conts[h].slave);
    WorkIsAssigned(w, h);
    i :| 0 <= i < |w.containers| && w.containers[i] == h;
    assert AtStage(w.conts[h], StageAt(w.pc, i), ContextOf(w, i));
  }

  lemma DoomedContainerStays(w: Worker, h: nat, w': Worker)
    requires h < |w.conts| && Doomed(w.conts[h])
    requires ContainerStep(w, h) == Some(w')
    ensures Doomed(w'.conts[h]) && w'.responses == w.responses
  {
  }

  lemma DoomedWorkerStays(w: Worker, h: nat, i: nat, w': Worker)
    requires Inv(w) && i < |w.containers| && w.containers[i] == h && Doomed(w.conts[h])
    requires StageAt(w.pc, i).Handing? || StageAt(w.pc, i).Lent? || StageAt(w.pc, i).Fetching?
    requires WorkerStep(w) == Some(w')
    ensures h < |w'.conts| && Doomed(w'.conts[h]) && w'.responses == w.responses
  {
    hide AtStage, RunOk, IdsOk, PipesOk, PeakOk, HistoryOk, RepliesUpTo, CountersOk, Staged;
  }

  lemma DoomedStaysElsewhere(w: Worker, h: nat, a: Action, w': Worker)
    requires h < |w.conts| && Doomed(w.conts[h]) && Step(w, a) == Some(w')
    requires a != WorkerMove && !a.ContainerMove?
    ensures h < |w'.conts| && Doomed(w'.conts[h]) && w'.responses == w.responses
  {
    hide WorkerStep, ContainerStep;
  }

  lemma DoomedStays(w: Worker, h: nat, a: Action, w': Worker)
    requires Inv(w) && h < |w.conts| && Doomed(w.conts[h]) && Step(w, a) == Some(w')
    ensures h < |w'.conts| && Doomed(w'.conts[h]) && w'.responses == w.responses
  {
    hide Shape, RunOk, AtStage, Working, Unused, WorkerStep, Doomed;
    var i := DoomedIsWorking(w, h);
    match a
    case WorkerMove => DoomedWorkerStays(w, h, i, w');
    case ContainerMove(k) => if k == h { DoomedContainerStays(w, h, w'); }
    case _ => DoomedStaysElsewhere(w, h, a, w');
  }

  /** From the moment a slave dies inside the run-start barrier, no run whatsoever
      hands its container's results back or answers the request. */
  lemma {:induction false} DoomedNeverPublishes(w: Worker, h: nat, actions: seq<Action>, w': Worker)
    requires Inv(w) && h < |w.conts| && Doomed(w.conts[h]) && Run(w, actions) == Some(w')
    ensures Inv(w') && h < |w'.conts| && Doomed(w'.conts[h]) && w'.responses == w.responses
  {
    hide Inv, Doomed;
    if actions != [] {
      var w1 := Run(w, actions[..|actions| - 1]).value;
      DoomedNeverPublishes(w, h, actions[..|actions| - 1], w1);
      DoomedStays(w1, h, actions[|actions| - 1], w');
      StepKeepsInv(w1, actions[|actions| - 1], w');
    }
  }

  /** A slave that is killed before it has cleared the flag has doomed its container
      for good: no continuation of the run answers the request. */
  lemma EarlyDeathIsFinal(w: Worker, h: nat, w': Worker)
    requires Reachable(w) && Leads(w, w')
    requires h < |w.conts| && w.conts[h].slave.Slave? && w.conts[h].slave.end.Some?
    requires w.conts[h].slave.pc == SArrive || w.conts[h].slave.pc.SWait? || w.conts[h].slave.pc == SClear
    ensures h < |w'.conts| && Doomed(w'.conts[h]) && w'.responses == w.responses
  {
    hide Inv, Doomed, Step;
    ReachableInv(w);
    EarlyDeathDooms(w, h);
    var actions :| Run(w, actions) == Some(w');
    DoomedNeverPublishes(w, h, actions, w');
  }

  // ------------------------------------------------- start gate and pipes

  /** Every container of the request has forked its slave for this request, and
      each slave got both ends of every pipe that a task of the request names. */
  ghost predicate AllForked(w: Worker) {
    forall k :: 0 <= k < |w.containers| ==>
      && w.containers[k] < |w.conts|
      && var s := w.conts[w.containers[k]].slave;
         s.Slave? && s.request == w.request && HoldsNamed(s.fds, w.tasks)
  }

  lemma OpenedMeansForked(c: Container, st: Stage, x: Context)
    requires AtStage(c, st, x) && x.started
    requires st.Lent? || st.Fetching? || st.Back? || st.Taken?
    ensures SlaveHas(c.slave, x)
  {
  }

  lemma AllForkedOnceOpened(w: Worker)
    requires Staged(w) && Opened(w)
    ensures AllForked(w)
  {
    hide AtStage, Unused, HoldsNamed;
    WantedEndsAreNamed(w.tasks);
    forall k | 0 <= k < |w.containers|
      ensures w.containers[k] < |w.conts| && SlaveHas(w.conts[w.containers[k]].slave, ContextOf(w, k))
    {
      OpenedMeansForked(w.conts[w.containers[k]], StageAt(w.pc, k), ContextOf(w, k));
    }
  }

  lemma PastStartMeansOpened(c: Container, st: Stage, x: Context)
    requires AtStage(c, st, x)
    requires c.pc == CSupervise || (Alive(c.slave) && c.slave.pc != SArrive && !c.slave.pc.SWait?)
    ensures x.started
  {
    hide JudgedIn;
    if Alive(c.slave) {
      AliveMeansWorking(c, st, x);
    }
  }

  /** As soon as one living slave is past the run-start barrier, or one container
      has started its clock, every slave of the request is forked and holds both
      ends of every pipe. */
  lemma StartGate(w: Worker, h: nat)
    requires Reachable(w) && h < |w.conts|
    requires var c := w.conts[h];
             c.pc == CSupervise || (Alive(c.slave) && c.slave.pc != SArrive && !c.slave.pc.SWait?)
    ensures AllForked(w)
  {
    hide Shape, RunOk, AtStage, AllForked;
    ReachableInv(w);
    WorkIsAssigned(w, h);
    var i :| 0 <= i < |w.containers| && w.containers[i] == h;
    PastStartMeansOpened(w.conts[h], StageAt(w.pc, i), ContextOf(w, i));
    AllForkedOnceOpened(w);
  }

  /** When the worker closes the pipes, everybody who needs them has them, the
      worker has exactly the ends the request named, and it keeps none of them. */
  lemma PipesAreClosedAfterForks(w: Worker, w': Worker)
    requires Reachable(w) && w.pc == WClose && Step(w, WorkerMove) == Some(w')
    ensures AllForked(w) && HoldsNamed(w.fds, w.tasks) && w'.fds == {} && w'.pipes == {}
  {
    hide AtStage, AllForked, RunOk, AssignedOk, HoldsNamed;
    WantedEndsAreNamed(w.tasks);
    ReachableInv(w);
    AllForkedOnceOpened(w);
  }

  /** A pipe is opened for the first task that names it, when neither end is open, and
      between requests no end is left open: every end that is opened is closed exactly
      once. */
  lemma PipesAreOpenedOnce(w: Worker, p: string)
    requires Reachable(w)
    ensures w.pc.WWrite? && w.pc.i < |w.tasks| && Names(w.tasks[w.pc.i], p) && p !in w.pipes ==>
              ReadEnd(p) !in w.fds && WriteEnd(p) !in w.fds
    ensures w.pc.WWrite? ==>
              (p in w.pipes <==> exists i :: 0 <= i < w.pc.i && i < |w.tasks| && Names(w.tasks[i], p))
    ensures w.pc == WIdle || w.pc.WPrepare? || w.pc == WReset ==> w.fds == {} && w.pipes == {}
  {
    hide AtStage, RunOk, AssignedOk, Names, Wanted, Staged, IdsOk, PeakOk, HistoryOk, CountersOk, RepliesUpTo;
    ReachableInv(w);
    if w.pc.WWrite? {
      WantedIff(w.tasks[..w.pc.i], p);
    }
  }

  // ------------------------------------------------------------ what is written

  /** The descriptor a stream has before the slave opens its file: the end that a reader
      or a writer needs of the pipe it names, descriptor 1 for the alias, or none. */
  lemma FdForMeans(stream: string, write: bool, isStderr: bool, p: string)
    ensures FdFor(stream, write, isStderr) == Unopened <==> stream == "" || stream[0] != '@'
    ensures FdFor(stream, write, isStderr) == End(ReadEnd(p)) <==>
            stream == "@" + p && !write && !(isStderr && p == "_stdout")
    ensures FdFor(stream, write, isStderr) == End(WriteEnd(p)) <==>
            stream == "@" + p && write && !(isStderr && p == "_stdout")
    ensures FdFor(stream, write, isStderr) == SameAsStdout <==> isStderr && stream == "@_stdout"
    ensures !FdFor(stream, write, isStderr).OpenedAs?
  {
    PipeOfIff(stream, p);
    PipeOfIff(stream, "_stdout");
    assert "@" + "_stdout" == "@_stdout";
  }

  /** What the worker's turn leaves in the task memory: the task of that place, its pipe
      ends for reading from stdin and writing to the other two, blank results and the
      error flag up. */
  lemma WriteLeaves(w: Worker, i: nat, w': Worker, p: string)
    requires Reachable(w) && w.pc == WWrite(i) && i < |w.tasks| && Step(w, WorkerMove) == Some(w')
    ensures i < |w.containers| && w.containers[i] < |w'.conts|
    ensures var td, t := w'.conts[w.containers[i]].td, w.tasks[i];
            && td.param == t && td.error && td.open.extra == None && EndsAs(td.results, None)
            && !td.results.timeLimitExceeded && !td.results.wallTimeLimitExceeded
            && (td.open.stdin == End(ReadEnd(p)) <==> t.stdin == "@" + p)
            && (td.open.stdout == End(WriteEnd(p)) <==> t.stdout == "@" + p)
            && (td.open.stderr == End(WriteEnd(p)) <==> t.stderr == "@" + p && p != "_stdout")
            && (td.open.stderr == SameAsStdout <==> t.stderr == "@_stdout")
            && (td.open.stdin == Unopened <==> t.stdin == "" || t.stdin[0] != '@')
            && (td.open.stdout == Unopened <==> t.stdout == "" || t.stdout[0] != '@')
            && (td.open.stderr == Unopened <==> t.stderr == "" || t.stderr[0] != '@')
  {
    hide AtStage, RunOk, AssignedOk, PipesOk, FdFor, PipeNames;
    ReachableInv(w);
    FdForMeans(w.tasks[i].stdin, false, false, p);
    FdForMeans(w.tasks[i].stdout, true, false, p);
    FdForMeans(w.tasks[i].stderr, true, true, p);
  }

  // --------------------------------------------------- container assignment

  /** Once prepared, each task has a container of its own: of the tasks without IPC
      and with the standard binds the k-th has the k-th permanent container, every
      other task a temporary one. */
  lemma AssignmentIsInTaskOrder(w: Worker, i: nat)
    requires Reachable(w) && w.pc != WIdle && !w.pc.WPrepare? && i < |w.tasks|
    ensures |w.containers| == |w.tasks| && Distinct(w.containers) && w.containers[i] < |w.conts|
    ensures w.conts[w.containers[i]].permanent <==> !w.tasks[i].needIpc && w.tasks[i].useStandardBinds
    ensures !w.tasks[i].needIpc && w.tasks[i].useStandardBinds ==>
              var k := |PlainPlaces(w.tasks[..i])|;
              k < |w.permanent| && w.containers[i] == w.permanent[k]
    ensures w.tasks[i].needIpc || !w.tasks[i].useStandardBinds ==> w.containers[i] in w.temporary
  {
    hide AtStage, RunOk, IdsOk, PlainPlaces;
    ReachableInv(w);
    CountIsCardinality(w.tasks[..i]);
    assert Kinds(w.conts)[w.containers[i]] == w.conts[w.containers[i]].permanent;
    assert w.containers[i] in w.containers;
  }

  lemma {:induction false} PeakIsMaximum(requests: seq<seq<Task>>)
    ensures forall k :: 0 <= k < |requests| ==> CountEligible(requests[k]) <= PeakEligible(requests)
    ensures PeakEligible(requests) == 0 ||
            exists k :: 0 <= k < |requests| && CountEligible(requests[k]) == PeakEligible(requests)
  {
    if requests != [] {
      var front := requests[..|requests| - 1];
      PeakIsMaximum(front);
      forall k | 0 <= k < |requests| ensures CountEligible(requests[k]) <= PeakEligible(requests) {
        if k < |front| {
          assert requests[k] == front[k];
        }
      }
      if PeakEligible(requests) != 0 && PeakEligible(requests) != CountEligible(requests[|requests| - 1]) {
        var k :| 0 <= k < |front| && CountEligible(front[k]) == PeakEligible(front);
        assert requests[k] == front[k];
      }
    }
  }

  /** Over any history, the permanent containers are as many as the tasks without IPC
      and with the standard binds in the request that had most of them. */
  lemma PermanentContainersMatchPeak(w: Worker)
    requires Reachable(w) && !w.pc.WPrepare?
    ensures |w.served| == w.request
    ensures forall k :: 0 <= k < |w.served| ==> |PlainPlaces(w.served[k])| <= |w.permanent|
    ensures |w.permanent| == 0 || exists k :: 0 <= k < |w.served| && |PlainPlaces(w.served[k])| == |w.permanent|
  {
    hide AtStage, RunOk, IdsOk, AssignedOk, PlainPlaces, Eligible;
    ReachableInv(w);
    PeakIsMaximum(w.served);
    forall k | 0 <= k < |w.served| ensures |PlainPlaces(w.served[k])| == CountEligible(w.served[k]) {
      CountIsCardinality(w.served[k]);
    }
  }

  // ------------------------------------------------------ end to end answers

  /** The requests a run accepted, in order. */
  function Accepted(actions: seq<Action>): seq<seq<Task>> {
    if actions == [] then []
    else
      var front := Accepted(actions[..|actions| - 1]);
      match actions[|actions| - 1]
      case Accept(tasks) => front + [tasks]
      case _ => front
  }

  /** The requests for which containers are being, or have been, prepared. */
  function Begun(w: Worker): seq<seq<Task>> {
    if w.pc.WPrepare? then w.served + [w.tasks] else w.served
  }

  lemma WorkerStepServes(w: Worker, w': Worker)
    requires WorkerStep(w) == Some(w')
    ensures Begun(w') == Begun(w)
  {
  }

  lemma ContainerStepServes(w: Worker, h: nat, w': Worker)
    requires h < |w.conts| && (ContainerStep(w, h) == Some(w') || SlaveStep(w, h) == Some(w'))
    ensures w'.pc == w.pc && w'.served == w.served && w'.tasks == w.tasks
  {
    hide ContainerLocal, SlaveLocal;
  }

  lemma StepServes(w: Worker, a: Action, w': Worker)
    requires Inv(w) && Step(w, a) == Some(w')
    ensures Begun(w') == if a.Accept? then Begun(w) + [a.tasks] else Begun(w)
  {
    hide Shape, Staged, RunOk, WorkerStep, ContainerStep, SlaveStep;
    match a
    case WorkerMove => WorkerStepServes(w, w');
    case ContainerMove(h) => ContainerStepServes(w, h, w');
    case SlaveMove(h) => ContainerStepServes(w, h, w');
    case _ =>
  }

  lemma {:induction false} ServedAreAccepted(actions: seq<Action>, w: Worker)
    requires Run(INITIAL, actions) == Some(w)
    ensures Accepted(actions) == Begun(w)
  {
    hide Inv;
    if actions != [] {
      var front := actions[..|actions| - 1];
      var w0 := Run(INITIAL, front).value;
      ServedAreAccepted(front, w0);
      InvariantHolds(front, w0);
      StepServes(w0, actions[|actions| - 1], w);
    }
  }

  /** What a reply says of the run it came from. A run that was stopped has no exit
      status, whatever became of its slave, and was over the limit it was stopped
      for; otherwise the status is how the slave ended, and a program that exited is
      the task's own. The readings are those observed, in their own units and
      places, and each limit flag compares one of them with its limit. */
  predicate Reports(r: Results, o: Origin, t: Task) {
    && (o.overrun.Some? ==> !r.exited && r.exitCode == -1 && !r.signaled && r.termSignal == -1)
    && (o.overrun.None? ==> o.end.Some? && EndsAs(r, o.end))
    && (r.exited ==> o.loaded == Some(t))
    && (match o.overrun
        case None => true
        case Some(CpuTime(ms)) => t.timeLimitMs != -1 && ms > t.timeLimitMs
        case Some(WallTime(ms)) => t.wallTimeLimitMs != -1 && ms > t.wallTimeLimitMs)
    && r.timeUsageMs == o.obs.time && r.timeUsageSysMs == o.obs.sys && r.timeUsageUserMs == o.obs.user
    && r.wallTimeUsageMs == o.obs.wall && r.memoryUsageKb == o.obs.memory
    && r.oomKilled == o.obs.oom && r.memoryLimitHit == o.obs.memoryHit
    && (r.timeLimitExceeded <==> t.timeLimitMs != -1 && o.obs.time > t.timeLimitMs)
    && (r.wallTimeLimitExceeded <==> t.wallTimeLimitMs != -1 && o.obs.wall > t.wallTimeLimitMs)
  }

  lemma JudgedReports(r: Results, origin: Option<Origin>, t: Task, request: nat, h: nat)
    requires Judged(r, origin, t, request, h)
    ensures origin.Some? && origin.value.request == request && origin.value.container == h
    ensures Reports(r, origin.value, t)
  {
    JudgeSays(t, origin.value.obs);
  }

  /** After any run that leaves the worker idle, there is one response for each
      request accepted, in order, and entry i of a response is the verdict on a
      run, made for that request in a container of its own, of that request's
      task i: nothing stale, nothing mixed up, nothing missing. */
  lemma ResponsesAnswerRequests(actions: seq<Action>, w: Worker)
    requires Run(INITIAL, actions) == Some(w) && w.pc == WIdle
    ensures |w.responses| == |Accepted(actions)|
    ensures forall k :: 0 <= k < |w.responses| ==>
              var r := w.responses[k];
              && r.request == k + 1 && r.tasks == Accepted(actions)[k]
              && |r.replies| == |r.containers| == |r.tasks| && Distinct(r.containers)
              && forall i :: 0 <= i < |r.tasks| ==>
                   && Judged(r.replies[i].results, r.replies[i].origin, r.tasks[i], k + 1, r.containers[i])
                   && Reports(r.replies[i].results, r.replies[i].origin.value, r.tasks[i])
  {
    hide Staged, RunOk, IdsOk, AssignedOk, Judged, PipesOk, PeakOk, Distinct, Run, Reports;
    InvariantHolds(actions, w);
    ServedAreAccepted(actions, w);
    forall k, i | 0 <= k < |w.responses| && 0 <= i < |w.responses[k].tasks|
      ensures var r := w.responses[k];
              r.replies[i].origin.Some? && Reports(r.replies[i].results, r.replies[i].origin.value, r.tasks[i])
    {
      var r := w.responses[k];
      JudgedReports(r.replies[i].results, r.replies[i].origin, r.tasks[i], k + 1, r.containers[i]);
    }
  }

  /** The final reading is no less than the one the run was stopped for. */
  predicate ReadOn(o: Origin) {
    match o.overrun
    case None => true
    case Some(CpuTime(ms)) => o.obs.time >= ms
    case Some(WallTime(ms)) => o.obs.wall >= ms
  }

  /** A verdict is right about the limits, and says why the run was over unless a clock
      was set back meanwhile. */
  lemma JudgedMakesSense(r: Results, origin: Option<Origin>, t: Task, request: nat, h: nat)
    requires Judged(r, origin, t, request, h)
    ensures FlagsRight(t, r) && (ReadOn(origin.value) ==> NamesReason(r))
  {
    JudgedFlagsAreRight(t, origin.value.obs);
  }
}
