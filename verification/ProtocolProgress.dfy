/** The protocol cannot get stuck, and a request is answered after finitely many
    steps: as long as no call fails and no slave dies before it has started, some
    process can always step, and every step makes a measure smaller. */
module ProtocolProgress {
  import opened TaskModel
  import opened Protocol
  import opened ProtocolInvariant
  import opened StartPreservation
  import opened ProtocolSafety

  /** A step of the protocol itself: neither a failure nor a new request. */
  predicate Internal(a: Action) {
    a != Die && !a.Accept?
  }

  ghost predicate CanAdvance(w: Worker) {
    exists a :: Internal(a) && Step(w, a).Some? && !Step(w, a).value.failed
  }

  /** Some slave died before it had started, or reported an error: the program
      reports this as a failure and stops. */
  predicate Broken(w: Worker) {
    exists h :: 0 <= h < |w.conts| && Doomed(w.conts[h])
  }

  // -------------------------------------------------- one container can move

  /** The container itself or its slave can make a step of its own. */
  ghost predicate ContainerCanAdvance(w: Worker, h: nat)
    requires h < |w.conts|
  {
    exists a :: Internal(a) && (a == ContainerMove(h) || a == SlaveMove(h) || a == SlaveEnd(h, Exited(0))
                                || a == SlaveOpens(h, 0) || a == SlaveAdds(h, None) || (a.PublishResults? && a.h == h))
                && Step(w, a).Some? && !Step(w, a).value.failed
  }

  lemma AdvanceBy(w: Worker, h: nat, a: Action)
    requires h < |w.conts| && Step(w, a).Some? && !Step(w, a).value.failed
    requires a == ContainerMove(h) || a == SlaveMove(h) || a == SlaveEnd(h, Exited(0))
          || a == SlaveOpens(h, 0) || a == SlaveAdds(h, None) || (a.PublishResults? && a.h == h)
    ensures ContainerCanAdvance(w, h)
  {
  }

  /** A container the worker waits for at the handover of the task is on its way. */
  lemma ReadyAdvances(w: Worker, h: nat)
    requires !w.failed && h < |w.conts| && Ready(w.conts[h]) && !Waiting(w.conts[h])
    ensures ContainerCanAdvance(w, h)
  {
    AdvanceBy(w, h, ContainerMove(h));
  }

  lemma RetiredAdvances(w: Worker, h: nat)
    requires !w.failed && h < |w.conts| && Retired(w.conts[h]) && w.conts[h].pc != CExited
    ensures ContainerCanAdvance(w, h)
  {
    AdvanceBy(w, h, ContainerMove(h));
  }

  /** Before the run-start barrier opens, a container that is not yet inside it
      can go on, and so can its slave. */
  lemma BeforeStartAdvances(w: Worker, h: nat, x: Context)
    requires !w.failed && h < |w.conts| && Working(w.conts[h], x) && !x.started && x.runGen == w.run.gen
    requires !Doomed(w.conts[h])
    requires !(&& w.conts[h].pc == CRunWait(w.run.gen)
               && w.conts[h].slave.Slave? && w.conts[h].slave.pc == SWait(w.run.gen))
    ensures ContainerCanAdvance(w, h)
  {
    hide JudgedIn;
    if w.conts[h].pc.CRunWait? {
      AdvanceBy(w, h, SlaveMove(h));
    } else {
      AdvanceBy(w, h, ContainerMove(h));
    }
  }

  /** After it has opened, a container that is not yet waiting with its results
      can go on, or its slave can, if only to its end. */
  lemma AfterStartAdvances(w: Worker, h: nat, x: Context)
    requires !w.failed && h < |w.conts| && Working(w.conts[h], x) && x.started && x.runGen == w.run.gen
    requires !Doomed(w.conts[h]) && !Waiting(w.conts[h])
    ensures ContainerCanAdvance(w, h)
  {
    hide JudgedIn;
    var c := w.conts[h];
    if c.pc == CSupervise && c.slave.end.None? {
      if c.slave.pc.SExec? || c.slave.pc == SFailed {
        AdvanceBy(w, h, SlaveEnd(h, Exited(0)));
      } else if c.slave.pc.SOpen? {
        AdvanceBy(w, h, SlaveOpens(h, 0));
      } else if c.slave.pc == SAddPath {
        AdvanceBy(w, h, SlaveAdds(h, None));
      } else {
        AdvanceBy(w, h, SlaveMove(h));
      }
    } else if c.pc == CPublish {
      AdvanceBy(w, h, PublishResults(h, Observation(None, 0, 0, 0, 0, 0, false, false)));
    } else {
      AdvanceBy(w, h, ContainerMove(h));
    }
  }

  // ------------------------------------------------------- the worker waits

  lemma SubsetIsSmaller<T>(a: set<T>, b: set<T>)
    requires a <= b
    ensures |a| <= |b|
  {
    assert b == a + (b - a);
  }

  /** While the worker waits at the run-start barrier, somebody else is not there
      yet: were everybody inside, the barrier would have opened. */
  lemma SomebodyIsMissing(w: Worker)
    requires Inv(w) && w.pc == WStartWait(w.run.gen)
    ensures exists i :: 0 <= i < |w.containers| &&
              !(&& w.conts[w.containers[i]].pc == CRunWait(w.run.gen)
                && w.conts[w.containers[i]].slave.Slave? && w.conts[w.containers[i]].slave.pc == SWait(w.run.gen))
  {
    hide AtStage, Unused;
    if forall i :: 0 <= i < |w.containers| ==>
         (&& w.conts[w.containers[i]].pc == CRunWait(w.run.gen)
          && w.conts[w.containers[i]].slave.Slave? && w.conts[w.containers[i]].slave.pc == SWait(w.run.gen)) {
      forall m | m in Members(w.containers) ensures m in w.run.arrived {
        MembersAre(w.containers, m);
        assert WaitsAtStart(w, m);
      }
      MembersAreCounted(w.containers);
      SubsetIsSmaller(Members(w.containers), w.run.arrived);
      assert false;
    }
  }

  lemma StartWaitAdvances(w: Worker)
    requires Inv(w) && !w.failed && !Broken(w) && w.pc.WStartWait? && !w.run.Released(w.pc.ticket)
    ensures CanAdvance(w)
  {
    hide Working, Unused, AssignedOk, Doomed, BarOk;
    SomebodyIsMissing(w);
    var i :| 0 <= i < |w.containers| &&
             !(&& w.conts[w.containers[i]].pc == CRunWait(w.run.gen)
               && w.conts[w.containers[i]].slave.Slave? && w.conts[w.containers[i]].slave.pc == SWait(w.run.gen));
    assert AtStage(w.conts[w.containers[i]], Lent, ContextOf(w, i));
    BeforeStartAdvances(w, w.containers[i], ContextOf(w, i));
  }

  lemma ReleaseWaitAdvances(w: Worker, i: nat, ticket: nat)
    requires Inv(w) && !w.failed && w.pc == WReleaseWait(i, ticket) && !MetAt(w, i, ticket)
    ensures CanAdvance(w)
  {
    hide Working, Unused, AssignedOk, Ready;
    assert AtStage(w.conts[w.containers[i]], Handing(ticket), ContextOf(w, i));
    ReadyAdvances(w, w.containers[i]);
  }

  lemma CollectWaitAdvances(w: Worker, i: nat, ticket: nat)
    requires Inv(w) && !w.failed && !Broken(w) && w.pc == WCollectWait(i, ticket) && !MetAt(w, i, ticket)
    ensures CanAdvance(w)
  {
    hide Working, Unused, AssignedOk, Doomed;
    assert AtStage(w.conts[w.containers[i]], Fetching(ticket), ContextOf(w, i));
    AfterStartAdvances(w, w.containers[i], ContextOf(w, i));
  }

  lemma TemporaryInUse(w: Worker, j: nat) returns (i: nat)
    requires Shape(w) && j < |w.temporary|
    ensures i < |w.containers| && w.containers[i] == w.temporary[j] < |w.conts|
    ensures !w.conts[w.temporary[j]].permanent
  {
    hide IdsOk, PipesOk, PeakOk, RepliesUpTo, HistoryOk, CountersOk;
    assert w.temporary[j] in w.temporary;
    assert !Kinds(w.conts)[w.temporary[j]];
    i :| 0 <= i < |w.containers| && w.containers[i] == w.temporary[j];
  }

  lemma ReapAdvances(w: Worker, j: nat)
    requires Inv(w) && !w.failed && w.pc == WReap(j) && w.conts[w.temporary[j]].pc != CExited
    ensures CanAdvance(w)
  {
    hide Working, Unused, Retired, Ready, AssignedOk, IdsOk, RunOk;
    var i := TemporaryInUse(w, j);
    assert AtStage(w.conts[w.temporary[j]], Taken, ContextOf(w, i));
    RetiredAdvances(w, w.temporary[j]);
  }

  lemma WorkerAdvances(w: Worker)
    requires Inv(w) && !w.failed && w.pc != WIdle
    requires w.pc.WStartWait? ==> w.run.Released(w.pc.ticket)
    requires w.pc.WReleaseWait? || w.pc.WCollectWait? ==> MetAt(w, w.pc.i, w.pc.ticket)
    requires w.pc.WReap? ==> w.conts[w.temporary[w.pc.j]].pc == CExited
    ensures CanAdvance(w)
  {
    hide StagesOk, RunOk, PipesOk, PeakOk, RepliesUpTo, HistoryOk, CountersOk;
    if Step(w, WorkerMove).None? {
      assert Step(w, Create(0)).Some?;
    }
  }

  /** No reachable state is a deadlock: until the request is done, some process
      can step, unless a slave has failed. */
  lemma NoDeadlock(w: Worker)
    requires Reachable(w) && !w.failed && w.pc != WIdle
    ensures CanAdvance(w) || Broken(w)
  {
    hide Inv, CanAdvance, Broken;
    ReachableInv(w);
    ProgressFromInv(w);
  }

  lemma ProgressFromInv(w: Worker)
    requires Inv(w) && !w.failed && w.pc != WIdle
    ensures CanAdvance(w) || Broken(w)
  {
    hide StagesOk, RunOk, PipesOk, PeakOk, RepliesUpTo, HistoryOk, CountersOk, CanAdvance;
    if !Broken(w) {
      match w.pc
      case WReleaseWait(i, ticket) =>
        if MetAt(w, i, ticket) { WorkerAdvances(w); } else { ReleaseWaitAdvances(w, i, ticket); }
      case WStartWait(ticket) =>
        if w.run.Released(ticket) { WorkerAdvances(w); } else { StartWaitAdvances(w); }
      case WCollectWait(i, ticket) =>
        if MetAt(w, i, ticket) { WorkerAdvances(w); } else { CollectWaitAdvances(w, i, ticket); }
      case WReap(j) =>
        if w.conts[w.temporary[j]].pc == CExited { WorkerAdvances(w); } else { ReapAdvances(w, j); }
      case _ => WorkerAdvances(w);
    }
  }

  /** What is proved of all runs leaves out nothing that may happen: while no call has
      failed, one may fail in any state, any request may come to an idle worker, and a
      living slave may be killed anywhere, die of an error anywhere between clearing the
      flag and becoming its program, and exit in any way from the program or after the
      error. */
  lemma EnvironmentIsFree(w: Worker, tasks: seq<Task>, h: nat, status: Status, fd: nat, extra: Option<string>,
      usage: Observation)
    requires !w.failed && h < |w.conts|
    ensures Step(w, Die).Some?
    ensures Step(w, Accept(tasks)).Some? <==> w.pc == WIdle
    ensures var s := w.conts[h].slave;
            && (Step(w, SlaveEnd(h, status)).Some? <==>
                s.Slave? && s.end.None? && (status.Signaled? || s.pc.SExec? || s.pc == SFailed))
            && (Step(w, SlaveError(h)).Some? <==>
                s.Slave? && s.end.None? && (s.pc.SOpen? || s.pc == SAddPath || s.pc == SLoad))
            && (Step(w, SlaveOpens(h, fd)).Some? <==> s.Slave? && s.end.None? && s.pc.SOpen?)
            && (Step(w, SlaveAdds(h, extra)).Some? <==> s.Slave? && s.end.None? && s.pc == SAddPath)
            && (Step(w, PublishResults(h, usage)).Some? <==> s.Slave? && w.conts[h].pc == CPublish)
  {
    hide WorkerStep, ContainerStep, SlaveStep, WithUsage;
  }
}
