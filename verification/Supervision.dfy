/** How a container supervises its slave: wait_for_slave, kill_all and the clock
    arithmetic of src/container.cpp. */
module Supervision {
  import opened TaskModel

  // ------------------------------------------------------------------ clocks

  /** struct timeval as gettimeofday fills it in. */
  datatype Timeval = Timeval(sec: int, usec: int) {
    predicate Normal() {
      0 <= usec < 1_000_000
    }

    function Micros(): int {
      sec * 1_000_000 + usec
    }
  }

  /** The timersub macro: borrow one second if the microseconds run negative. */
  function TimerSub(a: Timeval, b: Timeval): Timeval {
    if a.usec - b.usec < 0
    then Timeval(a.sec - b.sec - 1, a.usec - b.usec + 1_000_000)
    else Timeval(a.sec - b.sec, a.usec - b.usec)
  }

  function WallClockMs(start: Timeval, now: Timeval): int {
    var seg := TimerSub(now, start);
    seg.sec * 1000 + seg.usec / 1000
  }

  /** The wall clock is the elapsed time in microseconds, divided by 1000 and
      rounded down, whatever the two instants are. */
  lemma WallClockIsFloor(start: Timeval, now: Timeval)
    requires start.Normal() && now.Normal()
    ensures WallClockMs(start, now) * 1000 <= now.Micros() - start.Micros() < WallClockMs(start, now) * 1000 + 1000
  {
    var seg := TimerSub(now, start);
    assert seg.Micros() == now.Micros() - start.Micros();
    assert 0 <= seg.usec < 1_000_000;
    assert seg.usec == 1000 * (seg.usec / 1000) + seg.usec % 1000;
  }

  lemma WallClockIsMonotone(start: Timeval, a: Timeval, b: Timeval)
    requires start.Normal() && a.Normal() && b.Normal() && a.Micros() <= b.Micros()
    ensures WallClockMs(start, a) <= WallClockMs(start, b)
  {
    WallClockIsFloor(start, a);
    WallClockIsFloor(start, b);
  }

  /** cpuacct reports nanoseconds. */
  function CpuMs(ns: nat): nat {
    ns / 1_000_000
  }

  /** It is the milliseconds of CPU time, rounded down. */
  lemma CpuMsIsFloor(ns: nat)
    ensures 0 <= ns - 1_000_000 * CpuMs(ns) < 1_000_000
  {
  }

  // ------------------------------------------------------------------ events

  /** What waitpid() returns with: it was interrupted, by the timer or not, and the
      clocks read so; or the slave ended. */
  datatype Event =
    | Interrupted(alarm: bool, now: Timeval, cpuNs: nat)
    | Ended(status: Status)

  /** What the kernel refuses while the box is emptied: the kill(), or the wait() of
      that number. */
  datatype Faults = Faults(kill: bool, wait: Option<nat>)

  /** What is found in the end: the faults of the killing, the readings once everything
      is dead, and the error flag as the slave left it. */
  datatype Final = Final(faults: Faults, now: Timeval, cpuNs: nat, sysNs: nat, userNs: nat,
                         maxBytes: nat, currentBytes: nat, oom: bool, failures: nat, error: bool)

  function Observe(start: Timeval, f: Final, status: Option<Status>): Observation {
    Observation(status, CpuMs(f.cpuNs), CpuMs(f.sysNs), CpuMs(f.userNs), WallClockMs(start, f.now),
                (if f.maxBytes < f.currentBytes then f.currentBytes else f.maxBytes) / 1024,
                f.oom, f.failures != 0)
  }

  predicate TimeIsUp(t: Task, cpuNs: nat) {
    t.timeLimitMs != UNLIMITED && CpuMs(cpuNs) > t.timeLimitMs
  }

  predicate WallTimeIsUp(t: Task, start: Timeval, now: Timeval) {
    t.wallTimeLimitMs != UNLIMITED && WallClockMs(start, now) > t.wallTimeLimitMs
  }

  predicate Stops(t: Task, start: Timeval, e: Event) {
    e.Ended? || TimeIsUp(t, e.cpuNs) || WallTimeIsUp(t, start, e.now)
  }

  /** Microseconds from one instant to another. */
  function Elapsed(start: Timeval, now: Timeval): int {
    (now.sec - start.sec) * 1_000_000 + (now.usec - start.usec)
  }

  /** In the units the kernel counts in, a run is over a limit when it has used one
      whole millisecond more than that. */
  predicate OverLimit(t: Task, start: Timeval, now: Timeval, cpuNs: nat) {
    || (t.timeLimitMs != -1 && cpuNs >= (t.timeLimitMs + 1) * 1_000_000)
    || (t.wallTimeLimitMs != -1 && Elapsed(start, now) >= (t.wallTimeLimitMs + 1) * 1000)
  }

  lemma StopsMeans(t: Task, start: Timeval, e: Event)
    requires e.Interrupted? ==> start.Normal() && e.now.Normal()
    ensures Stops(t, start, e) <==> e.Ended? || OverLimit(t, start, e.now, e.cpuNs)
  {
    if e.Interrupted? {
      CpuMsIsFloor(e.cpuNs);
      WallClockIsFloor(start, e.now);
    }
  }

  /** The readings in published results, in terms of what the kernel counted: each the
      whole units of its own counter, rounded down. */
  predicate Measured(r: Results, start: Timeval, f: Final) {
    && 0 <= f.cpuNs - 1_000_000 * r.timeUsageMs < 1_000_000
    && 0 <= f.sysNs - 1_000_000 * r.timeUsageSysMs < 1_000_000
    && 0 <= f.userNs - 1_000_000 * r.timeUsageUserMs < 1_000_000
    && (start.Normal() && f.now.Normal() ==> 0 <= Elapsed(start, f.now) - 1000 * r.wallTimeUsageMs < 1000)
    && 0 <= (if f.maxBytes >= f.currentBytes then f.maxBytes else f.currentBytes) - 1024 * r.memoryUsageKb < 1024
    && r.oomKilled == f.oom && (r.memoryLimitHit <==> f.failures > 0)
  }

  /** The readings in results are those of an observation. */
  predicate Shows(r: Results, o: Observation) {
    && r.timeUsageMs == o.time && r.timeUsageSysMs == o.sys && r.timeUsageUserMs == o.user
    && r.wallTimeUsageMs == o.wall && r.memoryUsageKb == o.memory
    && r.oomKilled == o.oom && r.memoryLimitHit == o.memoryHit
  }

  lemma UsageShows(r: Results, t: Task, o: Observation)
    ensures Shows(WithUsage(r, t, o), o)
  {
  }

  lemma ShownIsMeasured(r: Results, start: Timeval, f: Final, status: Option<Status>)
    requires Shows(r, Observe(start, f, status))
    ensures Measured(r, start, f)
  {
    hide WallClockMs, CpuMs, Elapsed;
    CpuMsIsFloor(f.cpuNs);
    CpuMsIsFloor(f.sysNs);
    CpuMsIsFloor(f.userNs);
    if start.Normal() && f.now.Normal() {
      WallClockIsFloor(start, f.now);
      ElapsedIs(start, f.now);
    }
  }

  lemma ElapsedIs(start: Timeval, now: Timeval)
    ensures Elapsed(start, now) == now.Micros() - start.Micros()
  {
  }

  // -------------------------------------------------------------- the object

  /** `at` is the event that put an end to the loop. */
  datatype Outcome = Published(at: nat) | Died(at: nat) | Waiting

  /** waitpid() was interrupted, but by no timer: the loop takes that for a failure. */
  predicate Spurious(e: Event, pending: bool) {
    e.Interrupted? && !e.alarm && !pending
  }

  predicate GoesOn(t: Task, start: Timeval, e: Event, pending: bool) {
    !Spurious(e, pending) && !Stops(t, start, e)
  }

  /** What lets the loop go on, in the kernel's units: an interruption by the timer, or
      one that a tick before was the cause of, with no limit exceeded. */
  predicate Survived(t: Task, start: Timeval, e: Event, pending: bool) {
    e.Interrupted? && (e.alarm || pending) && !OverLimit(t, start, e.now, e.cpuNs)
  }

  lemma GoesOnMeans(t: Task, start: Timeval, e: Event, pending: bool)
    requires e.Interrupted? ==> start.Normal() && e.now.Normal()
    ensures GoesOn(t, start, e, pending) <==> Survived(t, start, e, pending)
  {
    hide OverLimit;
    StopsMeans(t, start, e);
  }

  /** The clock reads what gettimeofday can report. */
  predicate AllNormal(start: Timeval, events: seq<Event>) {
    start.Normal() && forall k :: 0 <= k < |events| && events[k].Interrupted? ==> events[k].now.Normal()
  }

  /** A process in the container's pid namespace. A dead one is there until somebody
      waits for it. */
  datatype Process = Process(pid: int, dead: bool)

  function Without(box: seq<Process>, pid: int): seq<Process> {
    if box == [] then []
    else if box[0].pid == pid then box[1..]
    else [box[0]] + Without(box[1..], pid)
  }

  /** The process that has been waited for is gone, and nobody else. */
  lemma {:induction false} WithoutRemovesOne(box: seq<Process>, pid: int, at: nat)
    requires at <= |box| && forall i :: 0 <= i < at ==> box[i].pid != pid
    requires at < |box| ==> box[at].pid == pid
    ensures Without(box, pid) == if at < |box| then box[..at] + box[at + 1..] else box
  {
    if at > 0 {
      WithoutRemovesOne(box[1..], pid, at - 1);
    }
  }

  /** The killing meets one of the faults: kill() has somebody to kill, and wait() is
      called once for each of them and once more. */
  predicate KillFails(box: seq<Process>, faults: Faults) {
    (box != [] && faults.kill) || (faults.wait.Some? && faults.wait.value <= |box|)
  }

  function BoxAt(box: seq<Process>, slave: int, e: Event): seq<Process> {
    if e.Ended? then Without(box, slave) else box
  }

  /** The part of a container that supervision changes. `box` are the processes in
      the pid namespace but the container itself, the slave among them. */
  class Supervisor {
    const task: Task
    const slave: int
    var runStart: Timeval
    var timerInterrupt: bool
    var timerOn: bool
    var restartOnAlarm: bool
    var results: Results
    var box: seq<Process>

    constructor (task: Task, slave: int, results: Results, box: seq<Process>, timerInterrupt: bool)
      ensures this.task == task && this.slave == slave && this.results == results
      ensures this.box == box && this.timerInterrupt == timerInterrupt
    {
      this.task, this.slave, this.results, this.box := task, slave, results, box;
      this.timerInterrupt, runStart, timerOn, restartOnAlarm := timerInterrupt, Timeval(0, 0), false, false;
    }

    /** kill(-1, SIGKILL). False for any failure but ESRCH, which means that nobody is
        there. */
    method Kill(fails: bool) returns (ok: bool)
      modifies this`box
      ensures ok <==> box == [] || !fails
      ensures |box| == |old(box)|
      ensures forall i :: 0 <= i < |box| ==> box[i] == if ok then Process(old(box)[i].pid, true) else old(box)[i]
    {
      ok := box == [] || !fails;
      var alive := box;
      if ok {
        box := seq(|alive|, i requires 0 <= i < |alive| => Process(alive[i].pid, true));
      }
    }

    /** Kills everybody, then waits for one after the other until there is no child
        left: nobody is waited for who is not dead, so no wait blocks, and nobody is
        left. Without the timer, and with wait() restarted in case it still fires.
        False: the container dies. */
    method KillAll(faults: Faults) returns (ok: bool, reaped: seq<Process>)
      modifies this`box, this`timerOn, this`restartOnAlarm
      ensures ok <==> !(old(box) != [] && faults.kill) && (faults.wait.Some? ==> faults.wait.value > |old(box)|)
      ensures ok ==> box == [] && !timerOn && !restartOnAlarm
      ensures ok ==> |reaped| == |old(box)| &&
                     forall i :: 0 <= i < |reaped| ==> reaped[i] == Process(old(box)[i].pid, true)
    {
      reaped := [];
      timerOn := false;
      ok := Kill(faults.kill);
      if !ok {
        return;
      }
      restartOnAlarm := true;
      ghost var killed := box;
      while true
        invariant killed == reaped + box && !timerOn
        invariant faults.wait.Some? ==> faults.wait.value >= |reaped|
        decreases |box|
      {
        if faults.wait == Some(|reaped|) {
          return false, reaped;
        }
        if box == [] {
          break;
        }
        assert box[0] == killed[|reaped|] && box[0].dead;
        reaped, box := reaped + [box[0]], box[1..];
      }
      restartOnAlarm := false;
    }

    /** The readings after the run. */
    method ReadCounters(final: Final) returns (o: Observation)
      ensures o == Observe(runStart, final, None)
    {
      var max := if final.maxBytes < final.currentBytes then final.currentBytes else final.maxBytes;
      o := Observation(None, CpuMs(final.cpuNs), CpuMs(final.sysNs), CpuMs(final.userNs),
                       WallClockMs(runStart, final.now),
                       max / 1024, final.oom, final.failures != 0);
    }

    /** The results they are, and the limit flags they decide. */
    method TakeUsage(final: Final, ghost status: Option<Status>)
      modifies this`results
      ensures results == WithUsage(old(results), task, Observe(runStart, final, status))
    {
      var o := ReadCounters(final);
      assert Observe(runStart, final, status) == o.(status := status);
      hide Observe;
      results := results.(timeUsageMs := o.time, timeUsageSysMs := o.sys, timeUsageUserMs := o.user,
                          wallTimeUsageMs := o.wall, memoryUsageKb := o.memory,
                          oomKilled := o.oom, memoryLimitHit := o.memoryHit);
      if task.timeLimitMs != UNLIMITED {
        results := results.(timeLimitExceeded := results.timeUsageMs > task.timeLimitMs);
      }
      if task.wallTimeLimitMs != UNLIMITED {
        results := results.(wallTimeLimitExceeded := results.wallTimeUsageMs > task.wallTimeLimitMs);
      }
    }

    /** The loop: waitpid() until the slave ends or a limit is exceeded, then the
        killing. The environment supplies what waitpid() and the clocks report. */
    method Loop(start: Timeval, events: seq<Event>, faults: Faults) returns (r: Outcome)
      modifies this
      ensures r.Waiting? ==>
                forall k :: 0 <= k < |events| ==> GoesOn(task, start, events[k], k == 0 && old(timerInterrupt))
      ensures !r.Waiting? ==>
                && r.at < |events| && !GoesOn(task, start, events[r.at], r.at == 0 && old(timerInterrupt))
                && forall k :: 0 <= k < r.at ==> GoesOn(task, start, events[k], k == 0 && old(timerInterrupt))
      ensures r.Died? <==> (!r.Waiting? &&
                (|| Spurious(events[r.at], r.at == 0 && old(timerInterrupt))
                 || KillFails(BoxAt(old(box), slave, events[r.at]), faults)))
      ensures r.Published? ==>
                && box == [] && !timerOn && !restartOnAlarm
                && results == WithStatus(old(results), if events[r.at].Ended? then Some(events[r.at].status) else None)
      ensures runStart == start
    {
      timerOn := true;
      runStart := start;
      for i := 0 to |events|
        invariant runStart == start && results == old(results) && box == old(box)
        invariant i > 0 ==> !timerInterrupt
        invariant i == 0 ==> timerInterrupt == old(timerInterrupt)
        invariant forall k :: 0 <= k < i ==> GoesOn(task, start, events[k], k == 0 && old(timerInterrupt))
      {
        match events[i]
        case Interrupted(alarm, now, cpuNs) =>
          timerInterrupt := timerInterrupt || alarm;
          if !timerInterrupt {
            return Died(i);
          }
          timerInterrupt := false;
          if (task.timeLimitMs != UNLIMITED && CpuMs(cpuNs) > task.timeLimitMs)
             || (task.wallTimeLimitMs != UNLIMITED && WallClockMs(runStart, now) > task.wallTimeLimitMs) {
            var ok, _ := KillAll(faults);
            return if ok then Published(i) else Died(i);
          }
        case Ended(status) =>
          box := Without(box, slave);
          var ok, _ := KillAll(faults);
          if !ok {
            return Died(i);
          }
          if status.Exited? {
            results := results.(exited := true, exitCode := status.code);
          }
          if status.Signaled? {
            results := results.(signaled := true, termSignal := status.sig);
          }
          return Published(i);
      }
      return Waiting;
    }

    /** wait_for_slave. What it publishes makes sense, and with a wall limit of L ms and
        ticks at least d ms apart it is done after L / d + 1 events. */
    method WaitForSlave(start: Timeval, events: seq<Event>, final: Final) returns (r: Outcome)
      modifies this
      ensures r.Waiting? ==>
                forall k :: 0 <= k < |events| ==> GoesOn(task, start, events[k], k == 0 && old(timerInterrupt))
      ensures !r.Waiting? ==>
                && r.at < |events| && !GoesOn(task, start, events[r.at], r.at == 0 && old(timerInterrupt))
                && forall k :: 0 <= k < r.at ==> GoesOn(task, start, events[k], k == 0 && old(timerInterrupt))
      ensures AllNormal(start, events) ==>
                && (forall k :: 0 <= k < (if r.Waiting? then |events| else r.at) ==>
                      Survived(task, start, events[k], k == 0 && old(timerInterrupt)))
                && (!r.Waiting? ==> !Survived(task, start, events[r.at], r.at == 0 && old(timerInterrupt)))
      ensures r.Died? <==> (!r.Waiting? &&
                var e := events[r.at];
                || (e.Interrupted? && !e.alarm && !(r.at == 0 && old(timerInterrupt))) || final.error
                || KillFails(BoxAt(old(box), slave, e), final.faults))
      ensures r.Published? ==>
                && box == [] && !timerOn && !restartOnAlarm
                && var status := if events[r.at].Ended? then Some(events[r.at].status) else None;
                   results == WithUsage(WithStatus(old(results), status), task, Observe(start, final, status))
      ensures r.Published? ==> Measured(results, start, final)
      ensures r.Published? && old(results) == BLANK ==>
                && FlagsRight(task, results)
                && EndsAs(results, if events[r.at].Ended? then Some(events[r.at].status) else None)
      ensures r.Published? && old(results) == BLANK && start.Normal() && NotEarlier(final, events[r.at]) ==>
                NamesReason(results)
      ensures start.Normal() && task.wallTimeLimitMs >= 0 ==>
                forall d :: d >= 1 && Paced(start, events, d) && |events| > task.wallTimeLimitMs / d ==>
                  !r.Waiting? && r.at <= task.wallTimeLimitMs / d
    {
      hide WithUsage, WithStatus, Observe, Measured, Shows, OverLimit, Survived, TimeIsUp, WallTimeIsUp;
      hide Paced, EndsAs, FlagsRight, NamesReason, KillFails;
      ghost var blank, pending := results == BLANK, timerInterrupt;
      r := Loop(start, events, final.faults);
      if AllNormal(start, events) {
        forall k | 0 <= k < |events|
          ensures GoesOn(task, start, events[k], k == 0 && pending)
             <==> Survived(task, start, events[k], k == 0 && pending)
        {
          GoesOnMeans(task, start, events[k], k == 0 && pending);
        }
      }
      if start.Normal() && task.wallTimeLimitMs >= 0 {
        forall d | d >= 1 && Paced(start, events, d) && |events| > task.wallTimeLimitMs / d
          ensures !r.Waiting? && r.at <= task.wallTimeLimitMs / d
        {
          LoopIsOver(task, start, events, pending, d, r);
        }
      }
      if r.Published? {
        timerOn := false;
        ghost var e := events[r.at];
        ghost var status := if e.Ended? then Some(e.status) else None;
        UsageShows(results, task, Observe(start, final, status));
        TakeUsage(final, status);
        ShownIsMeasured(results, start, final, status);
        if blank {
          PublishedIsJudged(task, start, e, final);
          if start.Normal() && NotEarlier(final, e) {
            VerdictIsConsistent(task, start, e, final);
          }
        }
        if final.error {
          return Died(r.at);
        }
      }
    }
  }

  // ------------------------------------------------------------- the verdict

  /** Clocks do not run backwards between the event that stopped the run and the
      final reading. */
  predicate NotEarlier(f: Final, e: Event) {
    e.Interrupted? ==> e.now.Normal() && f.now.Normal() && e.now.Micros() <= f.now.Micros() && e.cpuNs <= f.cpuNs
  }

  function StatusOf(e: Event): Option<Status> {
    if e.Ended? then Some(e.status) else None
  }

  /** What is published over blank results for a run that `e` put an end to. */
  function Verdict(t: Task, start: Timeval, e: Event, f: Final): Results {
    WithUsage(WithStatus(BLANK, StatusOf(e)), t, Observe(start, f, StatusOf(e)))
  }

  lemma PublishedIsJudged(t: Task, start: Timeval, e: Event, f: Final)
    ensures Verdict(t, start, e, f) == Judge(t, Observe(start, f, StatusOf(e)))
    ensures FlagsRight(t, Verdict(t, start, e, f)) && EndsAs(Verdict(t, start, e, f), StatusOf(e))
  {
    var o := Observe(start, f, StatusOf(e));
    PublishIsVerdictIff(BLANK, t);
    assert WithUsage(WithStatus(BLANK, o.status), t, o) == Judge(t, o);
    JudgedFlagsAreRight(t, o);
    JudgeSays(t, o);
  }

  lemma ReasonOfVerdict(t: Task, start: Timeval, e: Event, f: Final)
    ensures NamesReason(Verdict(t, start, e, f)) <==>
            e.Ended? || TimeIsUp(t, f.cpuNs) || WallTimeIsUp(t, start, f.now)
  {
    PublishedIsJudged(t, start, e, f);
  }

  /** The verdict makes sense: it is right about the limits, and if clocks do not run
      backwards it names a reason. */
  lemma VerdictIsConsistent(t: Task, start: Timeval, e: Event, f: Final)
    requires start.Normal() && Stops(t, start, e) && NotEarlier(f, e)
    ensures FlagsRight(t, Verdict(t, start, e, f)) && NamesReason(Verdict(t, start, e, f))
  {
    PublishedIsJudged(t, start, e, f);
    ReasonOfVerdict(t, start, e, f);
    if e.Interrupted? {
      WallClockIsMonotone(start, e.now, f.now);
      CpuIsMonotone(e.cpuNs, f.cpuNs);
    }
  }

  lemma CpuIsMonotone(a: nat, b: nat)
    requires a <= b
    ensures CpuMs(a) <= CpuMs(b)
  {
  }

  /** No reading is less than when the run was stopped. (Of the wall clock it may be
      if it goes from 0 to -1, since -1 as a limit means none.) */
  predicate ReadingsStay(start: Timeval, e: Event, f: Final) {
    e.Interrupted? ==>
      && CpuMs(e.cpuNs) <= CpuMs(f.cpuNs)
      && (WallClockMs(start, e.now) <= WallClockMs(start, f.now)
          || (WallClockMs(start, e.now) == 0 && WallClockMs(start, f.now) == UNLIMITED))
  }

  /** The verdict names a reason for every task that the event stops, exactly if no
      reading is less in the end than when the run was stopped: a clock that is set
      back in between can leave a verdict without any reason. */
  lemma ReasonIsKeptIff(start: Timeval, e: Event, f: Final)
    ensures (forall t :: Stops(t, start, e) ==> NamesReason(Verdict(t, start, e, f))) <==> ReadingsStay(start, e, f)
  {
    hide Verdict, NamesReason, WallClockMs, CpuMs;
    if ReadingsStay(start, e, f) {
      forall t | Stops(t, start, e) ensures NamesReason(Verdict(t, start, e, f)) {
        ReasonOfVerdict(t, start, e, f);
      }
    } else {
      var t := ReasonLost(start, e, f);
      ReasonOfVerdict(t, start, e, f);
    }
  }

  /** A task whose limit lies between the two readings. */
  lemma ReasonLost(start: Timeval, e: Event, f: Final) returns (t: Task)
    requires !ReadingsStay(start, e, f)
    ensures Stops(t, start, e) && !e.Ended? && !TimeIsUp(t, f.cpuNs) && !WallTimeIsUp(t, start, f.now)
  {
    hide WallClockMs;
    if CpuMs(e.cpuNs) > CpuMs(f.cpuNs) {
      t := DEFAULT_TASK.(timeLimitMs := CpuMs(f.cpuNs));
    } else {
      var wall := WallClockMs(start, f.now);
      t := DEFAULT_TASK.(wallTimeLimitMs := if wall == UNLIMITED then 0 else wall);
    }
  }

  /** An instance: stopped at two seconds, read at one, limit one second. */
  lemma BackwardsClockLosesReason(t: Task, f: Final)
    requires t.timeLimitMs == UNLIMITED && t.wallTimeLimitMs == 1000 && f.now == Timeval(1, 0)
    ensures var start, e := Timeval(0, 0), Interrupted(true, Timeval(2, 0), 0);
            Stops(t, start, e) && !NamesReason(Verdict(t, start, e, f))
  {
    hide Verdict, NamesReason;
    assert WallClockMs(Timeval(0, 0), Timeval(2, 0)) == 2000;
    assert WallClockMs(Timeval(0, 0), Timeval(1, 0)) == 1000;
    ReasonOfVerdict(t, Timeval(0, 0), Interrupted(true, Timeval(2, 0), 0), f);
  }

  // ------------------------------------------------------------- termination

  /** Every interrupt comes at least d milliseconds after the one before, the first
      after the start. */
  predicate Paced(start: Timeval, events: seq<Event>, d: int) {
    forall k :: 0 <= k < |events| && events[k].Interrupted? ==>
      && events[k].now.Normal()
      && (k == 0 ==> start.Micros() + d * 1000 <= events[k].now.Micros())
      && (k > 0 && events[k - 1].Interrupted? ==> events[k - 1].now.Micros() + d * 1000 <= events[k].now.Micros())
  }

  lemma {:induction false} PacedClock(start: Timeval, events: seq<Event>, d: int, k: nat)
    requires Paced(start, events, d) && k < |events|
    requires forall i :: 0 <= i <= k ==> events[i].Interrupted?
    ensures start.Micros() + (k + 1) * (d * 1000) <= events[k].now.Micros()
  {
    if k > 0 {
      PacedClock(start, events, d, k - 1);
      assert (k + 1) * (d * 1000) == k * (d * 1000) + d * 1000;
    }
  }

  /** With a wall limit of L ms and ticks at least d ms apart, the loop does not
      survive L / d + 1 events. */
  lemma SupervisionIsBounded(t: Task, start: Timeval, events: seq<Event>, d: int)
    requires start.Normal() && d >= 1 && t.wallTimeLimitMs >= 0 && Paced(start, events, d)
    requires |events| > t.wallTimeLimitMs / d
    ensures exists k :: 0 <= k <= t.wallTimeLimitMs / d && Stops(t, start, events[k])
  {
    var n := t.wallTimeLimitMs / d;
    if forall i :: 0 <= i <= n ==> events[i].Interrupted? {
      PacedClock(start, events, d, n);
      WallClockIsFloor(start, events[n].now);
      DivisionBound(t.wallTimeLimitMs, d);
      assert (n + 1) * (d * 1000) == ((n + 1) * d) * 1000;
      assert Stops(t, start, events[n]);
    } else {
      var i :| 0 <= i <= n && !events[i].Interrupted?;
      assert Stops(t, start, events[i]);
    }
  }

  lemma LoopIsOver(t: Task, start: Timeval, events: seq<Event>, pending: bool, d: int, r: Outcome)
    requires start.Normal() && d >= 1 && t.wallTimeLimitMs >= 0 && Paced(start, events, d)
    requires |events| > t.wallTimeLimitMs / d
    requires r.Waiting? ==> forall k :: 0 <= k < |events| ==> GoesOn(t, start, events[k], k == 0 && pending)
    requires !r.Waiting? ==>
               r.at < |events| && forall k :: 0 <= k < r.at ==> GoesOn(t, start, events[k], k == 0 && pending)
    ensures !r.Waiting? && r.at <= t.wallTimeLimitMs / d
  {
    SupervisionIsBounded(t, start, events, d);
    var k :| 0 <= k <= t.wallTimeLimitMs / d && Stops(t, start, events[k]);
    assert !GoesOn(t, start, events[k], k == 0 && pending);
  }

  lemma DivisionBound(a: int, d: int)
    requires a >= 0 && d >= 1
    ensures (a / d + 1) * d > a
  {
    assert a == d * (a / d) + a % d;
  }

  /** The event the clock was last read at before event k: that one or the start. */
  function ReadBefore(start: Timeval, events: seq<Event>, k: nat): Timeval
    requires k < |events|
  {
    if k > 0 && events[k - 1].Interrupted? then events[k - 1].now else start
  }

  /** When the wall limit stops the run, the clock reads at most one tick gap more
      than the limit. */
  lemma OvershootIsBounded(t: Task, start: Timeval, events: seq<Event>, k: nat, gapMs: nat)
    requires start.Normal() && k < |events| && t.wallTimeLimitMs >= 0
    requires events[k].Interrupted? && events[k].now.Normal() && WallTimeIsUp(t, start, events[k].now)
    requires forall i :: 0 <= i < k ==> !Stops(t, start, events[i])
    requires k > 0 ==> events[k - 1].Interrupted? && events[k - 1].now.Normal()
    requires events[k].now.Micros() - ReadBefore(start, events, k).Micros() <= gapMs * 1000
    ensures t.wallTimeLimitMs < WallClockMs(start, events[k].now) <= t.wallTimeLimitMs + gapMs
  {
    var before := ReadBefore(start, events, k);
    WallClockIsFloor(start, events[k].now);
    WallClockIsFloor(start, before);
    if k > 0 {
      assert !Stops(t, start, events[k - 1]);
    }
  }
}
