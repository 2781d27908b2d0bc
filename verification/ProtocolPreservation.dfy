/** Every step keeps the invariant, so every reachable state has it. */
module ProtocolPreservation {
  import opened TaskModel
  import opened Protocol
  import opened ProtocolInvariant
  import opened ContainerPreservation
  import opened StartPreservation
  import opened WorkerPreservation

  // ------------------------------------------------------------ every step

  lemma PrepareOrWriteKeepsInv(w: Worker, w': Worker)
    requires Inv(w) && WorkerStep(w) == Some(w') && (w.pc.WPrepare? || w.pc == WReset || w.pc.WWrite?)
    ensures Inv(w')
  {
    hide StagesOk, RunOk, AssignedOk, PeakOk, IdsOk, PipesOk, RepliesUpTo, HistoryOk, CountersOk;
    match w.pc
    case WPrepare(_) =>
      if |w.containers| >= |w.tasks| { EndPrepareKeepsInv(w, w'); } else { ReuseKeepsInv(w, w.pc.next); }
    case WReset => ResetKeepsInv(w, w');
    case WWrite(i) =>
      if i >= |w.tasks| { PhaseEndKeepsInv(w, w'.pc); } else { WriteKeepsInv(w, i, w'.conts[w.containers[i]]); }
  }

  lemma ReleaseOrStartKeepsInv(w: Worker, w': Worker)
    requires Inv(w) && WorkerStep(w) == Some(w')
    requires w.pc.WReleaseArrive? || w.pc.WReleaseWait? || w.pc == WStartArrive || w.pc.WStartWait? || w.pc == WClose
    ensures Inv(w')
  {
    hide StagesOk, RunOk, AssignedOk, PeakOk, IdsOk, PipesOk, RepliesUpTo, HistoryOk, CountersOk;
    match w.pc
    case WReleaseArrive(i) =>
      if i >= |w.containers| { PhaseEndKeepsInv(w, w'.pc); } else { HandTaskKeepsInv(w, i); }
    case WReleaseWait(i, ticket) => ReleaseReturnKeepsInv(w, i, ticket);
    case WStartArrive => WorkerArrivalKeepsInv(w);
    case WStartWait(ticket) => StartReturnKeepsInv(w, ticket);
    case WClose => CloseKeepsInv(w);
  }

  lemma CollectOrEndKeepsInv(w: Worker, w': Worker)
    requires Inv(w) && WorkerStep(w) == Some(w')
    requires w.pc.WCollectArrive? || w.pc.WCollectWait? || w.pc.WPut? || w.pc.WReturnId? || w.pc.WReap?
    ensures Inv(w')
  {
    hide StagesOk, RunOk, AssignedOk, PeakOk, IdsOk, PipesOk, RepliesUpTo, HistoryOk, CountersOk;
    match w.pc
    case WCollectArrive(i) =>
      if i >= |w.tasks| { RespondKeepsInv(w); } else { AskResultKeepsInv(w, i); }
    case WCollectWait(i, ticket) => ResultReturnKeepsInv(w, i, ticket);
    case WPut(i) => PutKeepsInv(w, i, w.conts[w.containers[i]].td);
    case WReturnId(j) =>
      if j < |w.temporary| { GiveOneBackKeepsInv(w, j, w'); } else { EndKeepsInv(w, w'); }
    case WReap(j) => ReapKeepsInv(w, j);
  }

  lemma WorkerMoveKeepsInv(w: Worker, w': Worker)
    requires Inv(w) && WorkerStep(w) == Some(w')
    ensures Inv(w')
  {
    hide Inv;
    if w.pc.WPrepare? || w.pc == WReset || w.pc.WWrite? {
      PrepareOrWriteKeepsInv(w, w');
    } else if w.pc.WCollectArrive? || w.pc.WCollectWait? || w.pc.WPut? || w.pc.WReturnId? || w.pc.WReap? {
      CollectOrEndKeepsInv(w, w');
    } else {
      ReleaseOrStartKeepsInv(w, w');
    }
  }

  lemma ContainerAtRunKeepsInv(w: Worker, h: nat, w': Worker)
    requires Inv(w) && h < |w.conts| && ContainerStep(w, h) == Some(w') && TouchesTheRun(w.conts[h].pc)
    ensures Inv(w') || w' == w.(failed := true)
  {
    hide Inv;
    match w.conts[h].pc
    case CFork => ForkKeepsInv(w, h);
    case CRunArrive => ContainerArrivalKeepsInv(w, h);
    case CRunWait(_) => PassStartKeepsInv(w, h);
    case CCheck => if !w.conts[h].td.error { CheckKeepsInv(w, h, w'.conts[h]); }
  }

  lemma ContainerMoveKeepsInv(w: Worker, h: nat, w': Worker)
    requires Inv(w) && h < |w.conts| && ContainerStep(w, h) == Some(w')
    ensures Inv(w') || w' == w.(failed := true)
  {
    hide Inv;
    if TouchesTheRun(w.conts[h].pc) {
      ContainerAtRunKeepsInv(w, h, w');
    } else {
      LocalMoveKeepsInv(w, h, w'.conts[h]);
    }
  }

  lemma SlaveMoveKeepsInv(w: Worker, h: nat, w': Worker)
    requires Inv(w) && h < |w.conts| && SlaveStep(w, h) == Some(w')
    ensures Inv(w')
  {
    hide Inv;
    match w.conts[h].slave.pc
    case SArrive => SlaveArrivalKeepsInv(w, h, w'.conts[h]);
    case SWait(_) => SlavePassKeepsInv(w, h, w'.conts[h]);
    case SClear => SlaveKeepsInv(w, h, w'.conts[h]);
    case SLoad => SlaveKeepsInv(w, h, w'.conts[h]);
    case _ =>
  }

  lemma FailureKeepsInv(w: Worker)
    requires Inv(w)
    ensures Inv(w.(failed := true))
  {
    hide AtStage, AssignedOk, IdsOk, RepliesUpTo, HistoryOk, Unused;
    var w' := w.(failed := true);
    SamePlaceKeepsStages(w, w');
    forall m ensures m in w'.run.arrived <==> WaitsAtStart(w', m) {
      assert WaitsAtStart(w', m) == WaitsAtStart(w, m);
    }
  }

  /** Every step of every process keeps the invariant. */
  lemma StepKeepsInv(w: Worker, a: Action, w': Worker)
    requires Inv(w) && Step(w, a) == Some(w')
    ensures Inv(w')
  {
    hide Inv;
    match a
    case Die => FailureKeepsInv(w);
    case Accept(tasks) => AcceptKeepsInv(w, tasks, w');
    case Create(id) => CreateKeepsInv(w, id, w');
    case WorkerMove => WorkerMoveKeepsInv(w, w');
    case ContainerMove(h) => ContainerMoveKeepsInv(w, h, w'); FailureKeepsInv(w);
    case KillSlave(h, over) => KillKeepsInv(w, h, over, w'.conts[h]);
    case PublishResults(h, usage) => PublishKeepsInv(w, h, usage, w'.conts[h]);
    case SlaveMove(h) => SlaveMoveKeepsInv(w, h, w');
    case SlaveOpens(h, fd) => SlaveKeepsInv(w, h, w'.conts[h]);
    case SlaveAdds(h, extra) => SlaveKeepsInv(w, h, w'.conts[h]);
    case SlaveError(h) => SlaveKeepsInv(w, h, w'.conts[h]);
    case SlaveEnd(h, status) => SlaveEndKeepsInv(w, h, status, w'.conts[h]);
  }

  /** The invariant holds in every reachable state: for any number of requests,
      of tasks in each, and any interleaving. */
  lemma {:induction false} InvariantHolds(actions: seq<Action>, w: Worker)
    requires Run(INITIAL, actions) == Some(w)
    ensures Inv(w)
  {
    if actions == [] {
      forall m ensures !WaitsAtStart(w, m) {
      }
    } else {
      var front := Run(INITIAL, actions[..|actions| - 1]);
      InvariantHolds(actions[..|actions| - 1], front.value);
      StepKeepsInv(front.value, actions[|actions| - 1], w);
    }
  }
}
