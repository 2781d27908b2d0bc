/** Which tasks may meet in one container: over any run, a container that serves a
    second request holds tasks without IPC and with the standard binds only. */
module Sharing {
  import opened TaskModel
  import opened Protocol
  import opened ProtocolInvariant
  import opened ContainerPreservation
  import opened ProtocolPreservation
  import opened ProtocolSafety

  /** Not yet forked in this round, or in the first one. */
  predicate BeforeFork(pc: ContainerPc) {
    pc == CStart || pc == CTaskArrive || pc.CTaskWait? || pc == CMakeCpuacct || pc == CMakeMemory || pc == CFork
  }

  /** A permanent container holds no task that asks for IPC or for binds of its own,
      and a temporary one forks once. */
  predicate Shareable(c: Container) {
    && (c.permanent ==> !c.td.param.needIpc && c.td.param.useStandardBinds)
    && (!c.permanent && BeforeFork(c.pc) ==> c.slave == NoSlave)
  }

  predicate AllShareable(w: Worker) {
    forall h :: 0 <= h < |w.conts| ==> Shareable(w.conts[h])
  }

  /** What a step may do to a container in this respect. */
  predicate Follows(c: Container, c': Container) {
    && c'.permanent == c.permanent && Shareable(c')
    && (!c.permanent && c.slave.Slave? ==> c'.slave.Slave? && c'.slave.request == c.slave.request)
  }

  predicate AllFollow(w: Worker, w': Worker) {
    |w.conts| <= |w'.conts| && forall h :: 0 <= h < |w.conts| ==> Follows(w.conts[h], w'.conts[h])
  }

  lemma WriteFollows(w: Worker, i: nat, w': Worker)
    requires Shape(w) && AllShareable(w) && w.pc == WWrite(i) && Write(w, i) == Some(w')
    ensures AllShareable(w') && AllFollow(w, w')
  {
    hide PeakOk, IdsOk, PipesOk, RepliesUpTo, HistoryOk, CountersOk;
    if i < |w.tasks| {
      assert Kinds(w.conts)[w.containers[i]] == w.conts[w.containers[i]].permanent;
    }
  }

  lemma WorkerFollows(w: Worker, w': Worker)
    requires Shape(w) && AllShareable(w) && WorkerStep(w) == Some(w')
    ensures AllShareable(w') && AllFollow(w, w')
  {
    hide Shape;
    match w.pc
    case WWrite(i) => hide Write; WriteFollows(w, i, w');
    case _ =>
  }

  lemma ReplacedFollows(w: Worker, h: nat, c': Container, w': Worker)
    requires AllShareable(w) && h < |w.conts| && Follows(w.conts[h], c') && w'.conts == w.conts[h := c']
    ensures AllShareable(w') && AllFollow(w, w')
  {
  }

  lemma LocalFollows(c: Container, c': Container)
    requires Shareable(c) && ContainerLocal(c) == Some(c')
    ensures Follows(c, c')
  {
  }

  lemma TouchFollows(w: Worker, h: nat, w': Worker)
    requires h < |w.conts| && Shareable(w.conts[h]) && TouchesTheRun(w.conts[h].pc) && ContainerStep(w, h) == Some(w')
    ensures w'.conts == w.conts || (|w'.conts| == |w.conts| && w'.conts == w.conts[h := w'.conts[h]])
    ensures w'.conts != w.conts ==> Follows(w.conts[h], w'.conts[h])
  {
    hide ContainerLocal;
  }

  lemma ContainerFollows(w: Worker, h: nat, w': Worker)
    requires AllShareable(w) && h < |w.conts| && ContainerStep(w, h) == Some(w')
    ensures AllShareable(w') && AllFollow(w, w')
  {
    hide ContainerLocal, AllFollow, Shareable, Follows;
    var c := w.conts[h];
    if TouchesTheRun(c.pc) {
      hide ContainerStep;
      TouchFollows(w, h, w');
      if w'.conts == w.conts {
        FollowsItself(w);
        StillFollows(w, w, w');
      } else {
        ReplacedFollows(w, h, w'.conts[h], w');
      }
    } else {
      LocalFollows(c, ContainerLocal(c).value);
      ReplacedFollows(w, h, w'.conts[h], w');
    }
  }

  lemma SlaveFollows(w: Worker, h: nat, w': Worker)
    requires AllShareable(w) && h < |w.conts| && SlaveStep(w, h) == Some(w')
    ensures AllShareable(w') && AllFollow(w, w')
  {
    hide AllFollow;
    ReplacedFollows(w, h, w'.conts[h], w');
  }

  lemma ChosenFollows(c: Container, h: nat, a: Action, c': Container)
    requires Shareable(c) && Chooses(c, h, a, c')
    ensures Follows(c, c')
  {
    hide WithUsage;
  }

  lemma OtherFollows(w: Worker, a: Action, w': Worker)
    requires AllShareable(w) && Step(w, a) == Some(w')
    requires a != WorkerMove && !a.ContainerMove? && !a.SlaveMove?
    ensures AllShareable(w') && AllFollow(w, w')
  {
    hide WorkerStep, ContainerStep, SlaveStep, Kill, Publish, OpenNext, AddPath, SlaveFails, SlaveEnds;
    hide AllFollow, Shareable, Follows;
    if a == Die || a.Accept? {
      FollowsItself(w);
      StillFollows(w, w, w');
    } else if a.Create? {
      CreateFollows(w, a.id, w');
    } else {
      var h := a.h;
      ChosenFollows(w.conts[h], h, a, w'.conts[h]);
      ReplacedFollows(w, h, w'.conts[h], w');
    }
  }

  lemma StillFollows(w: Worker, w1: Worker, w2: Worker)
    requires AllShareable(w1) && AllFollow(w, w1) && w2.conts == w1.conts
    ensures AllShareable(w2) && AllFollow(w, w2)
  {
  }

  lemma CreateFollows(w: Worker, id: int, w': Worker)
    requires AllShareable(w) && CreateFor(w, id) == Some(w')
    ensures AllShareable(w') && AllFollow(w, w')
  {
  }

  lemma StepFollows(w: Worker, a: Action, w': Worker)
    requires Inv(w) && AllShareable(w) && Step(w, a) == Some(w')
    ensures AllShareable(w') && AllFollow(w, w')
  {
    hide Shape, Staged, RunOk, AllShareable, AllFollow, WorkerStep, ContainerStep, SlaveStep;
    match a
    case WorkerMove => WorkerFollows(w, w');
    case ContainerMove(h) => ContainerFollows(w, h, w');
    case SlaveMove(h) => SlaveFollows(w, h, w');
    case _ => OtherFollows(w, a, w');
  }

  lemma FollowsOn(w: Worker, w1: Worker, w2: Worker)
    requires AllFollow(w, w1) && AllFollow(w1, w2)
    ensures AllFollow(w, w2)
  {
    hide Shareable;
  }

  lemma FollowsItself(w: Worker)
    requires AllShareable(w)
    ensures AllFollow(w, w)
  {
  }

  lemma {:induction false} RunFollows(w: Worker, actions: seq<Action>, w': Worker)
    requires Inv(w) && AllShareable(w) && Run(w, actions) == Some(w')
    ensures Inv(w') && AllShareable(w') && AllFollow(w, w')
  {
    hide Inv, AllShareable, AllFollow, Step;
    if actions == [] {
      FollowsItself(w);
    } else {
      var front := actions[..|actions| - 1];
      var w1 := Run(w, front).value;
      RunFollows(w, front, w1);
      StepKeepsInv(w1, actions[|actions| - 1], w');
      StepFollows(w1, actions[|actions| - 1], w');
      FollowsOn(w, w1, w');
    }
  }

  lemma LeadsFollows(w: Worker, w': Worker)
    requires Reachable(w) && Leads(w, w')
    ensures AllShareable(w) && AllShareable(w') && AllFollow(w, w')
  {
    hide Inv, AllFollow, Run;
    var before :| Run(INITIAL, before) == Some(w);
    Nothing(INITIAL);
    InvariantHolds([], INITIAL);
    RunFollows(INITIAL, before, w);
    var actions :| Run(w, actions) == Some(w');
    RunFollows(w, actions, w');
  }

  /** In every reachable state. */
  lemma PermanentHoldsPlain(w: Worker, h: nat)
    requires Reachable(w) && h < |w.conts| && w.conts[h].permanent
    ensures !w.conts[h].td.param.needIpc && w.conts[h].td.param.useStandardBinds
  {
    hide AllFollow, Run;
    assert Leads(w, w) by { assert Run(w, []) == Some(w) by { Nothing(w); } }
    LeadsFollows(w, w);
  }

  lemma Nothing(w: Worker)
    ensures Run(w, []) == Some(w)
  {
  }

  /** If a container has had slaves of two different requests, then at no time of the
      run, be it before, between or after, does it hold a task that asks for IPC or does
      without the standard binds. */
  lemma OnlyPlainTasksShare(w: Worker, h: nat, w': Worker, at: Worker)
    requires Reachable(w) && Leads(w, w') && h < |w.conts|
    requires Reachable(at) && (Leads(at, w) || Leads(w, at)) && h < |at.conts|
    requires w.conts[h].slave.Slave? && h < |w'.conts| && w'.conts[h].slave.Slave?
    requires w.conts[h].slave.request != w'.conts[h].slave.request
    ensures !at.conts[h].td.param.needIpc && at.conts[h].td.param.useStandardBinds
  {
    hide AllShareable, Shareable;
    LeadsFollows(w, w');
    if Leads(at, w) {
      LeadsFollows(at, w);
    } else {
      LeadsFollows(w, at);
    }
    PermanentHoldsPlain(at, h);
  }
}
