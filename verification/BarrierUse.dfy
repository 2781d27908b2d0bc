/** The run-start barrier of the protocol is a SharedBarrier that is used as it may be
    used: nobody calls wait twice, nobody returns too early, and it is reset only when
    everybody is out. */
module BarrierUse {
  import opened TaskModel
  import opened Barriers
  import opened Protocol
  import opened ProtocolInvariant
  import opened WorkerPreservation
  import opened ProtocolPreservation

  /** The ticket of a member that has called wait and has not returned. */
  function Place(w: Worker, m: Member): Option<nat> {
    match m
    case TheWorker => if w.pc.WStartWait? then Some(w.pc.ticket) else None
    case ContainerOf(h) => if h < |w.conts| && w.conts[h].pc.CRunWait? then Some(w.conts[h].pc.ticket) else None
    case SlaveOf(h) =>
      if h < |w.conts| && w.conts[h].slave.Slave? && w.conts[h].slave.pc.SWait? then Some(w.conts[h].slave.pc.ticket)
      else None
  }

  /** The call on the barrier that a step is. */
  datatype Use = Arrival(m: Member) | Leaving(m: Member, ticket: nat) | Resetting(count: nat) | Elsewhere

  function UseOf(w: Worker, a: Action): Use {
    match a
    case WorkerMove =>
      (match w.pc
       case WReset => Resetting(|w.containers| * 2 + 1)
       case WStartArrive => Arrival(TheWorker)
       case WStartWait(t) => Leaving(TheWorker, t)
       case _ => Elsewhere)
    case ContainerMove(h) =>
      if h >= |w.conts| then Elsewhere
      else
        (match w.conts[h].pc
         case CRunArrive => Arrival(ContainerOf(h))
         case CRunWait(t) => Leaving(ContainerOf(h), t)
         case _ => Elsewhere)
    case SlaveMove(h) =>
      if h >= |w.conts| || !w.conts[h].slave.Slave? then Elsewhere
      else
        (match w.conts[h].slave.pc
         case SArrive => Arrival(SlaveOf(h))
         case SWait(t) => Leaving(SlaveOf(h), t)
         case _ => Elsewhere)
    case _ => Elsewhere
  }

  /** What such a call does, seen from the protocol; and that it is allowed. */
  ghost predicate IsUse(w: Worker, u: Use, w': Worker) {
    match u
    case Arrival(m) =>
      && Place(w, m) == None && Place(w', m) == Some(w.run.gen) && w'.run == w.run.Arrive(m)
      && forall k :: k != m ==> Place(w', k) == Place(w, k)
    case Leaving(m, ticket) =>
      && Place(w, m) == Some(ticket) && w.run.Released(ticket) && Place(w', m) == None && w'.run == w.run
      && forall k :: k != m ==> Place(w', k) == Place(w, k)
    case Resetting(count) =>
      && count > 0 && w'.run == w.run.Reset(count)
      && forall k :: Place(w, k) == None && Place(w', k) == None
    case Elsewhere =>
      w'.run == w.run && forall k :: Place(w', k) == Place(w, k)
  }

  // ---------------------------------------------------------- step by step

  /** A change of container h that leaves its and its slave's place alone. */
  lemma OneElsewhere(w: Worker, h: nat, c': Container, w': Worker)
    requires h < |w.conts| && w'.conts == w.conts[h := c'] && w'.pc == w.pc && w'.run == w.run
    requires !w.conts[h].pc.CRunWait? && !c'.pc.CRunWait?
    requires c'.slave == w.conts[h].slave || !(w.conts[h].slave.Slave? && w.conts[h].slave.pc.SWait?)
    requires c'.slave == w.conts[h].slave || !(c'.slave.Slave? && c'.slave.pc.SWait?)
    ensures IsUse(w, Elsewhere, w')
  {
  }

  lemma LocalIsElsewhere(c: Container, c': Container)
    requires ContainerLocal(c) == Some(c')
    ensures !c.pc.CRunWait? && !c'.pc.CRunWait? && c'.slave == c.slave
  {
  }

  /** A container forks only when its former slave has left the barrier. */
  lemma ForkFindsSlaveOut(w: Worker, h: nat)
    requires Inv(w) && h < |w.conts| && w.conts[h].pc == CFork
    ensures !(w.conts[h].slave.Slave? && w.conts[h].slave.pc.SWait?)
  {
    hide Shape, RunOk, JudgedIn;
    if h in w.containers {
      var i :| 0 <= i < |w.containers| && w.containers[i] == h;
      assert AtStage(w.conts[h], StageAt(w.pc, i), ContextOf(w, i));
    }
  }

  lemma ContainerStepUses(w: Worker, h: nat, w': Worker)
    requires Inv(w) && h < |w.conts| && ContainerStep(w, h) == Some(w')
    ensures IsUse(w, UseOf(w, ContainerMove(h)), w')
  {
    hide Inv, ContainerLocal;
    var c := w.conts[h];
    match c.pc
    case CFork => ForkFindsSlaveOut(w, h);
    case CRunArrive =>
    case CRunWait(_) =>
    case CCheck =>
    case _ =>
      LocalIsElsewhere(c, w'.conts[h]);
      OneElsewhere(w, h, w'.conts[h], w');
  }

  lemma SlaveLocalIsElsewhere(c: Container, c': Container)
    requires SlaveLocal(c) == Some(c') || Prepares(c, c') || SlaveFails(c) == Some(c')
    ensures c'.pc == c.pc && c.slave.Slave? && c'.slave.Slave? && !c.slave.pc.SWait? && !c'.slave.pc.SWait?
  {
  }

  lemma SlaveStepUses(w: Worker, h: nat, w': Worker)
    requires h < |w.conts| && SlaveStep(w, h) == Some(w')
    ensures IsUse(w, UseOf(w, SlaveMove(h)), w')
  {
    hide SlaveLocal;
    if SlaveLocal(w.conts[h]) == Some(w'.conts[h]) {
      SlaveLocalIsElsewhere(w.conts[h], w'.conts[h]);
    }
  }

  /** The worker's steps leave the containers' and the slaves' program counters alone. */
  predicate SamePcs(w: Worker, w': Worker) {
    && |w'.conts| == |w.conts|
    && forall h :: 0 <= h < |w.conts| ==> w'.conts[h].pc == w.conts[h].pc && w'.conts[h].slave == w.conts[h].slave
  }

  lemma WorkerStepKeepsPcs(w: Worker, w': Worker)
    requires WorkerStep(w) == Some(w')
    ensures SamePcs(w, w')
  {
  }

  lemma WorkerStepMovesRun(w: Worker, w': Worker)
    requires WorkerStep(w) == Some(w')
    ensures match UseOf(w, WorkerMove)
            case Resetting(n) => w'.run == w.run.Reset(n) && !w.pc.WStartWait? && !w'.pc.WStartWait?
            case Arrival(m) => w'.run == w.run.Arrive(m) && !w.pc.WStartWait? && w'.pc == WStartWait(w.run.gen)
            case Leaving(m, t) => w'.run == w.run && w.pc == WStartWait(t) && w.run.Released(t) && !w'.pc.WStartWait?
            case Elsewhere => w'.run == w.run && !w.pc.WStartWait? && !w'.pc.WStartWait?
  {
  }

  lemma WorkerStepUses(w: Worker, w': Worker)
    requires Inv(w) && WorkerStep(w) == Some(w')
    ensures IsUse(w, UseOf(w, WorkerMove), w')
  {
    hide Inv, WorkerStep;
    WorkerStepKeepsPcs(w, w');
    WorkerStepMovesRun(w, w');
    if w.pc == WReset {
      NobodyInsideAtReset(w);
    }
  }

  lemma OtherStepIsElsewhere(w: Worker, a: Action, w': Worker)
    requires Step(w, a) == Some(w') && a != WorkerMove && !a.ContainerMove? && !a.SlaveMove?
    ensures IsUse(w, Elsewhere, w')
  {
    hide WorkerStep, ContainerStep, SlaveStep;
  }

  /** Every step of the protocol is an allowed call on the barrier, or none. */
  lemma StepIsUse(w: Worker, a: Action, w': Worker)
    requires Inv(w) && Step(w, a) == Some(w')
    ensures IsUse(w, UseOf(w, a), w')
  {
    hide Inv, WorkerStep, ContainerStep, SlaveStep, IsUse;
    match a
    case WorkerMove => WorkerStepUses(w, w');
    case ContainerMove(h) => ContainerStepUses(w, h, w');
    case SlaveMove(h) => SlaveStepUses(w, h, w');
    case _ => OtherStepIsElsewhere(w, a, w');
  }

  // ------------------------------------------------------------- the object

  /** The object is where the protocol says the barrier is, with the same members
      inside. */
  ghost predicate Represents(b: SharedBarrier<Member>, w: Worker)
    reads b
  {
    && b.Valid() && b.Value() == w.run
    && (forall m :: m in b.inside <==> Place(w, m).Some?)
    && (forall m :: m in b.inside ==> b.inside[m] == Place(w, m).value)
  }

  /** What a step is to the barrier, done to the object. */
  method Follow(b: SharedBarrier<Member>, w: Worker, a: Action)
    requires Inv(w) && Represents(b, w) && Step(w, a).Some?
    modifies b
    ensures Represents(b, Step(w, a).value)
  {
    hide Inv, Step, UseOf, Place, Barrier.Arrive, Barrier.Reset, Barrier.Released, SharedBarrier.Valid;
    StepIsUse(w, a, Step(w, a).value);
    match UseOf(w, a)
    case Arrival(m) => var _ := b.Arrive(m);
    case Leaving(m, ticket) => b.Return(m, ticket);
    case Resetting(count) =>
      assert b.inside == map[];
      b.Reset(count);
    case Elsewhere =>
  }

  /** A whole run: it never asks of the barrier what a barrier does not offer. */
  method FollowRun(actions: seq<Action>) returns (b: SharedBarrier<Member>)
    requires Run(INITIAL, actions).Some?
    ensures fresh(b) && Represents(b, Run(INITIAL, actions).value)
  {
    hide Inv, Step;
    b := new SharedBarrier<Member>(1);
    var w := INITIAL;
    for i := 0 to |actions|
      invariant fresh(b) && Represents(b, w) && Run(INITIAL, actions[..i]) == Some(w)
    {
      assert actions[..i + 1][..i] == actions[..i];
      RunsPass(actions, i + 1);
      InvariantHolds(actions[..i], w);
      Follow(b, w, actions[i]);
      w := Step(w, actions[i]).value;
    }
    assert actions[..|actions|] == actions;
  }

  /** A run that is possible is possible up to any point. */
  lemma {:induction false} RunsPass(actions: seq<Action>, n: nat)
    requires Run(INITIAL, actions).Some? && n <= |actions|
    ensures Run(INITIAL, actions[..n]).Some?
  {
    hide Step;
    if n == |actions| {
      assert actions[..n] == actions;
    } else {
      RunsPass(actions[..|actions| - 1], n);
      assert actions[..|actions| - 1][..n] == actions[..n];
    }
  }
}
