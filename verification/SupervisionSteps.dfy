/** That the supervision loop does what the protocol's steps say: when the loop goes on
    there is no step, and when it ends and publishes, those are two steps. */
module SupervisionSteps {
  import opened TaskModel
  import opened Protocol
  import opened Supervision

  /** The readings that the protocol speaks of are over a limit exactly when the kernel's
      counters are. */
  lemma ExceedsMeans(t: Task, start: Timeval, now: Timeval, cpuNs: nat)
    requires start.Normal() && now.Normal()
    ensures Exceeds(t, CpuTime(CpuMs(cpuNs))) <==> t.timeLimitMs != -1 && cpuNs >= (t.timeLimitMs + 1) * 1_000_000
    ensures Exceeds(t, WallTime(WallClockMs(start, now))) <==>
              t.wallTimeLimitMs != -1 && Elapsed(start, now) >= (t.wallTimeLimitMs + 1) * 1000
  {
    CpuMsIsFloor(cpuNs);
    WallClockIsFloor(start, now);
  }

  /** A run is stopped exactly for a reading over its task's limit. Nobody is alive then,
      no status is taken over, and the reading is on record. */
  lemma KillMeans(c: Container, over: Overrun)
    ensures Kill(c, over).Some? <==>
              && c.pc == CSupervise && c.slave.Slave?
              && match over
                 case CpuTime(ms) => c.td.param.timeLimitMs != -1 && ms > c.td.param.timeLimitMs
                 case WallTime(ms) => c.td.param.wallTimeLimitMs != -1 && ms > c.td.param.wallTimeLimitMs
    ensures Kill(c, over).Some? ==>
              var c' := Kill(c, over).value;
              && c'.pc == CPublish && c'.td == c.td && c'.status == None && c'.overrun == Some(over)
              && c'.slave.Slave? && c'.slave.end == (if Alive(c.slave) then Some(Signaled(9)) else c.slave.end)
              && c'.slave.pc == c.slave.pc && c'.slave.request == c.slave.request
  {
  }

  /** The step of the protocol that the loop makes at an event, if any. */
  function StopStep(c: Container, start: Timeval, e: Event): Option<Container> {
    match e
    case Ended(_) => ContainerLocal(c)
    case Interrupted(_, now, cpuNs) =>
      if TimeIsUp(c.td.param, cpuNs) then Kill(c, CpuTime(CpuMs(cpuNs)))
      else Kill(c, WallTime(WallClockMs(start, now)))
  }

  /** A container that supervises; waitpid() returns the slave only when it has ended, and
      with its status. */
  predicate Supervises(c: Container, e: Event) {
    c.pc == CSupervise && c.slave.Slave? && (e.Ended? ==> c.slave.end == Some(e.status))
  }

  lemma StopStepIff(c: Container, start: Timeval, e: Event)
    requires Supervises(c, e)
    ensures StopStep(c, start, e).Some? <==> Stops(c.td.param, start, e)
  {
    hide CpuMs, WallClockMs;
  }

  lemma NothingToReport(r: Results)
    ensures WithStatus(r, None) == r
  {
  }

  /** What is published after the event over the old results, and on whose account: the
      reading is recorded exactly if it was a limit that ended the run. */
  lemma PublishStep(c: Container, h: nat, start: Timeval, e: Event, f: Final)
    requires Supervises(c, e) && Stops(c.td.param, start, e)
    ensures StopStep(c, start, e).Some?
    ensures Publish(StopStep(c, start, e).value, h, Observe(start, f, None)).Some?
    ensures var c' := Publish(StopStep(c, start, e).value, h, Observe(start, f, None)).value;
            && c'.pc == CCheck && c'.td.param == c.td.param && c'.td.error == c.td.error
            && c'.td.results ==
               WithUsage(WithStatus(c.td.results, StatusOf(e)), c.td.param, Observe(start, f, StatusOf(e)))
            && c'.td.origin.Some? && c'.td.origin.value.obs == Observe(start, f, StatusOf(e))
            && c'.td.origin.value.request == c.slave.request && c'.td.origin.value.container == h
            && (c'.td.origin.value.overrun.Some? <==> e.Interrupted?)
            && (e.Ended? ==> c'.td.origin.value.end == Some(e.status))
  {
    hide CpuMs, WallClockMs, WithUsage, WithStatus;
    NothingToReport(c.td.results);
    StopStepIff(c, start, e);
  }

  /** wait_for_slave on behalf of container `c` of the protocol, as it is when the loop
      ends. What the object publishes is what the two steps leave in the task memory;
      and it dies of the error flag exactly if the protocol's check of it fails. */
  method Supervise(s: Supervisor, start: Timeval, events: seq<Event>, final: Final, ghost c: Container, ghost h: nat)
      returns (r: Outcome, ghost c': Container)
    requires forall k :: 0 <= k < |events| ==> Supervises(c, events[k])
    requires c.td.param == s.task && c.td.results == s.results && c.td.error == final.error
    modifies s
    ensures !r.Waiting? ==> r.at < |events|
    ensures forall k :: 0 <= k < (if r.Waiting? then |events| else r.at) ==> StopStep(c, start, events[k]) == None
    ensures r.Published? ==>
              && StopStep(c, start, events[r.at]).Some?
              && Publish(StopStep(c, start, events[r.at]).value, h, Observe(start, final, None)) == Some(c')
              && s.results == c'.td.results && Check(c') == Some(c'.(pc := CDropCpuacct))
    ensures r.Died? && !KillFails(BoxAt(old(s.box), s.slave, events[r.at]), final.faults)
              && !Spurious(events[r.at], r.at == 0 && old(s.timerInterrupt)) ==>
              && StopStep(c, start, events[r.at]).Some?
              && Publish(StopStep(c, start, events[r.at]).value, h, Observe(start, final, None)) == Some(c')
              && Check(c') == None
  {
    hide StopStep, Stops, Publish, WithUsage, WithStatus, Observe;
    c' := c;
    ghost var box := s.box;
    r := s.WaitForSlave(start, events, final);
    forall k | 0 <= k < |events|
      ensures StopStep(c, start, events[k]).Some? <==> Stops(c.td.param, start, events[k])
    {
      StopStepIff(c, start, events[k]);
    }
    if !r.Waiting? && Stops(c.td.param, start, events[r.at]) {
      PublishStep(c, h, start, events[r.at], final);
      c' := Publish(StopStep(c, start, events[r.at]).value, h, Observe(start, final, None)).value;
    }
  }
}
