/** Whose the task memory of a container is: who may touch it when, and what stays in
    it while it is the container's turn. */
module Ownership {
  import opened TaskModel
  import opened Barriers
  import opened Protocol
  import opened ProtocolInvariant
  import opened ContainerPreservation
  import opened ProtocolPreservation
  import opened ProtocolSafety

  /** The worker's next step reads or writes container h's task data. */
  predicate WorkerTouches(w: Worker, h: nat) {
    match w.pc
    case WWrite(i) => i < |w.tasks| && i < |w.containers| && w.containers[i] == h
    case WPut(i) => i < |w.containers| && w.containers[i] == h
    case _ => false
  }

  /** The next step of container h or its slave does: binds and limits, verdict,
      error flag, and everything the slave reads to become its program. */
  predicate ContainerTouches(c: Container) {
    || c.pc == CMakeCpuacct || c.pc == CMakeMemory || c.pc == CSupervise || c.pc == CPublish || c.pc == CCheck
    || (Alive(c.slave) && (c.slave.pc == SClear || Preparing(c.slave.pc)))
  }

  /** Step a is one of those. */
  predicate Touches(w: Worker, a: Action, h: nat)
    requires h < |w.conts|
  {
    match a
    case WorkerMove => WorkerTouches(w, h)
    case ContainerMove(k) => k == h && ContainerTouches(w.conts[h])
    case KillSlave(k, _) => k == h && ContainerTouches(w.conts[h])
    case PublishResults(k, _) => k == h && ContainerTouches(w.conts[h])
    case SlaveMove(k) => k == h && ContainerTouches(w.conts[h])
    case SlaveOpens(k, _) => k == h && ContainerTouches(w.conts[h])
    case SlaveAdds(k, _) => k == h && ContainerTouches(w.conts[h])
    case SlaveError(k) => k == h && ContainerTouches(w.conts[h])
    case _ => false
  }

  /** The same state with other task data in container h. */
  function WithData(w: Worker, h: nat, td: TaskData): Worker
    requires h < |w.conts|
  {
    w.(conts := w.conts[h := w.conts[h].(td := td)])
  }

  /** Step by step the effect of `f` on w is its effect on w with other data. */
  predicate SameButData(late: Option<Worker>, other: Option<Worker>, h: nat, td: TaskData) {
    match late
    case None => other == None
    case Some(w') => h < |w'.conts| && other == Some(WithData(w', h, td))
  }

  lemma WriteIgnores(w: Worker, i: nat, h: nat, td: TaskData)
    requires h < |w.conts| && !(i < |w.tasks| && i < |w.containers| && w.containers[i] == h)
    ensures SameButData(Write(w, i), Write(WithData(w, h, td), i), h, td)
  {
    if i < |w.tasks| && i < |w.containers| && w.containers[i] < |w.conts| {
      var k := w.containers[i];
      var c := w.conts[k];
      var c' := c.(td := SetTask(c.td, w.tasks[i]));
      assert WithData(w, h, td).conts[k := c'] == w.conts[k := c'][h := w.conts[h].(td := td)];
    }
  }

  lemma MeetIgnores(w: Worker, i: nat, pc: WorkerPc, h: nat, td: TaskData)
    requires h < |w.conts|
    ensures SameButData(Meet(w, i, pc), Meet(WithData(w, h, td), i, pc), h, td)
  {
    if i < |w.containers| && w.containers[i] < |w.conts| {
      var k := w.containers[i];
      var b := w.conts[k].bar.Arrive(WorkerSide);
      var late := w.conts[k := w.conts[k].(bar := b)];
      var other := WithData(w, h, td).conts[k := WithData(w, h, td).conts[k].(bar := b)];
      assert other == late[h := late[h].(td := td)];
    }
  }

  lemma GiveBackIgnores(w: Worker, j: nat, h: nat, td: TaskData)
    requires h < |w.conts|
    ensures SameButData(GiveBack(w, j), GiveBack(WithData(w, h, td), j), h, td)
  {
    if j < |w.temporary| && w.temporary[j] < |w.conts| {
      var k := w.temporary[j];
      var late := w.conts[k := w.conts[k].(held := false)];
      var other := WithData(w, h, td).conts[k := WithData(w, h, td).conts[k].(held := false)];
      assert other == late[h := late[h].(td := td)];
    }
  }

  lemma WorkerIgnores(w: Worker, h: nat, td: TaskData)
    requires h < |w.conts| && !WorkerTouches(w, h)
    ensures SameButData(WorkerStep(w), WorkerStep(WithData(w, h, td)), h, td)
  {
    hide Write, Meet, GiveBack;
    match w.pc
    case WWrite(i) => WriteIgnores(w, i, h, td);
    case WReleaseArrive(i) => MeetIgnores(w, i, WReleaseWait(i, TicketAt(w, i)), h, td);
    case WCollectArrive(i) => MeetIgnores(w, i, WCollectWait(i, TicketAt(w, i)), h, td);
    case WReturnId(j) => GiveBackIgnores(w, j, h, td);
    case _ =>
  }

  lemma LocalIgnores(c: Container, td: TaskData)
    requires !ContainerTouches(c)
    ensures ContainerLocal(c.(td := td)) ==
            match ContainerLocal(c) case None => None case Some(c') => Some(c'.(td := td))
  {
  }

  lemma PutBack(w: Worker, k: nat, c': Container, h: nat, td: TaskData)
    requires h < |w.conts| && k < |w.conts|
    ensures WithData(w, h, td).conts[k := if k == h then c'.(td := td) else c']
         == w.conts[k := c'][h := w.conts[k := c'][h].(td := td)]
  {
  }

  /** A change of one container and of the run-start barrier. */
  lemma ChangeIgnores(w: Worker, k: nat, c': Container, run: Barrier<Member>, h: nat, td: TaskData)
    requires h < |w.conts| && k < |w.conts|
    ensures var c2 := if k == h then c'.(td := td) else c';
            SameButData(Some(w.(conts := w.conts[k := c'], run := run)),
                        Some(WithData(w, h, td).(conts := WithData(w, h, td).conts[k := c2], run := run)), h, td)
  {
    PutBack(w, k, c', h, td);
  }

  lemma TouchIgnores(w: Worker, k: nat, h: nat, td: TaskData)
    requires h < |w.conts| && k < |w.conts| && TouchesTheRun(w.conts[k].pc) && (k == h ==> w.conts[h].pc != CCheck)
    ensures SameButData(ContainerStep(w, k), ContainerStep(WithData(w, h, td), k), h, td)
  {
    hide ContainerLocal, SameButData;
    var c := w.conts[k];
    match c.pc
    case CFork => ChangeIgnores(w, k, Fork(w, c), w.run, h, td);
    case CRunArrive => ChangeIgnores(w, k, c.(pc := CRunWait(w.run.gen)), w.run.Arrive(ContainerOf(k)), h, td);
    case CRunWait(ticket) =>
      ChangeIgnores(w, k, c.(pc := CSupervise), w.run, h, td);
      assert SameButData(None, None, h, td) by { NothingIgnores(h, td); }
    case CCheck =>
      ChangeIgnores(w, k, c.(pc := CDropCpuacct), w.run, h, td);
      FailureIgnores(w, h, td);
  }

  lemma NothingIgnores(h: nat, td: TaskData)
    ensures SameButData(None, None, h, td)
  {
  }

  lemma FailureIgnores(w: Worker, h: nat, td: TaskData)
    requires h < |w.conts|
    ensures SameButData(Some(w.(failed := true)), Some(WithData(w, h, td).(failed := true)), h, td)
  {
  }

  lemma ContainerIgnores(w: Worker, k: nat, h: nat, td: TaskData)
    requires h < |w.conts| && k < |w.conts| && (k == h ==> !ContainerTouches(w.conts[h]))
    ensures SameButData(ContainerStep(w, k), ContainerStep(WithData(w, h, td), k), h, td)
  {
    hide ContainerLocal, SameButData;
    if TouchesTheRun(w.conts[k].pc) {
      TouchIgnores(w, k, h, td);
    } else {
      var c := w.conts[k];
      if k == h {
        LocalIgnores(c, td);
      }
      match ContainerLocal(c)
      case None => NothingIgnores(h, td);
      case Some(c') => ChangeIgnores(w, k, c', w.run, h, td);
    }
  }

  lemma SlaveIgnores(w: Worker, k: nat, h: nat, td: TaskData)
    requires h < |w.conts| && k < |w.conts| && (k == h ==> !ContainerTouches(w.conts[h]))
    ensures SameButData(SlaveStep(w, k), SlaveStep(WithData(w, h, td), k), h, td)
  {
    if SlaveStep(w, k).Some? {
      PutBack(w, k, SlaveStep(w, k).value.conts[k], h, td);
    }
  }

  lemma WithIgnores(w: Worker, k: nat, r: Option<Container>, other: Option<Container>, h: nat, td: TaskData)
    requires h < |w.conts| && k < |w.conts|
    requires other == match r case None => None case Some(c') => Some(if k == h then c'.(td := td) else c')
    ensures SameButData(WithContainer(w, k, r), WithContainer(WithData(w, h, td), k, other), h, td)
  {
    hide SameButData;
    match r
    case None => NothingIgnores(h, td);
    case Some(c') => ChangeIgnores(w, k, c', w.run, h, td);
  }

  lemma CreateIgnores(w: Worker, id: int, h: nat, td: TaskData)
    requires h < |w.conts|
    ensures SameButData(CreateFor(w, id), CreateFor(WithData(w, h, td), id), h, td)
  {
    var c := NewContainer(id, true);
    var d := NewContainer(id, false);
    assert WithData(w, h, td).conts + [c] == (w.conts + [c])[h := w.conts[h].(td := td)];
    assert WithData(w, h, td).conts + [d] == (w.conts + [d])[h := w.conts[h].(td := td)];
  }

  /** The list is complete: a step that is not on it neither depends on container h's
      task data nor changes it. */
  lemma OnlyTouchesMatter(w: Worker, a: Action, h: nat, td: TaskData)
    requires h < |w.conts| && !Touches(w, a, h)
    ensures SameButData(Step(w, a), Step(WithData(w, h, td), a), h, td)
  {
    hide WorkerStep, ContainerStep, SlaveStep, CreateFor, WorkerTouches;
    if !w.failed {
      var w2 := WithData(w, h, td);
      match a
      case WorkerMove => WorkerIgnores(w, h, td);
      case Create(id) => CreateIgnores(w, id, h, td);
      case ContainerMove(k) => if k < |w.conts| { ContainerIgnores(w, k, h, td); }
      case SlaveMove(k) => if k < |w.conts| { SlaveIgnores(w, k, h, td); }
      case KillSlave(k, o) =>
        if k < |w.conts| { WithIgnores(w, k, Kill(w.conts[k], o), Kill(w2.conts[k], o), h, td); }
      case PublishResults(k, u) =>
        if k < |w.conts| { WithIgnores(w, k, Publish(w.conts[k], k, u), Publish(w2.conts[k], k, u), h, td); }
      case SlaveOpens(k, fd) =>
        if k < |w.conts| { WithIgnores(w, k, OpenNext(w.conts[k], fd), OpenNext(w2.conts[k], fd), h, td); }
      case SlaveAdds(k, e) =>
        if k < |w.conts| { WithIgnores(w, k, AddPath(w.conts[k], e), AddPath(w2.conts[k], e), h, td); }
      case SlaveError(k) =>
        if k < |w.conts| { WithIgnores(w, k, SlaveFails(w.conts[k]), SlaveFails(w2.conts[k]), h, td); }
      case SlaveEnd(k, st) =>
        if k < |w.conts| { WithIgnores(w, k, SlaveEnds(w.conts[k], st), SlaveEnds(w2.conts[k], st), h, td); }
      case _ =>
    }
  }

  /** In particular, who changes the task data is on the list. */
  lemma OnlyTouchesChange(w: Worker, a: Action, h: nat, w': Worker)
    requires h < |w.conts| && Step(w, a) == Some(w')
    ensures h < |w'.conts| && (w'.conts[h].td != w.conts[h].td ==> Touches(w, a, h))
  {
    hide Step, Touches;
    if Touches(w, a, h) {
      StepGrowsGen(w, h, a, w');
    } else {
      OnlyTouchesMatter(w, a, h, w.conts[h].td);
      assert WithData(w, h, w.conts[h].td) == w by {
        assert w.conts[h := w.conts[h].(td := w.conts[h].td)] == w.conts;
      }
    }
  }

  lemma StageSaysWhoseTurn(c: Container, st: Stage, x: Context)
    requires AtStage(c, st, x)
    ensures ContainerTouches(c) ==> c.bar.gen % 2 == 1 && (st.Handing? || st.Lent? || st.Fetching?)
    ensures st.Away? || st.Filled? || st.Back? || st.Taken? ==> c.bar.gen % 2 == 0
    ensures c.bar.gen % 2 == 1 ==> st.Handing? || st.Lent? || st.Fetching?
  {
    hide JudgedIn, AfterOpen, BeforeOpen, Fresh;
  }

  lemma UnusedIsNobodysTurn(c: Container)
    requires Unused(c)
    ensures !ContainerTouches(c) && c.bar.gen % 2 == 0
  {
  }

  lemma TurnsAlternate(w: Worker, h: nat)
    requires Inv(w) && h < |w.conts|
    ensures WorkerTouches(w, h) ==> w.conts[h].bar.gen % 2 == 0
    ensures ContainerTouches(w.conts[h]) ==> w.conts[h].bar.gen % 2 == 1
  {
    hide Shape, RunOk, AtStage, Unused, ContainerTouches;
    if h in w.containers {
      forall i | 0 <= i < |w.containers| && w.containers[i] == h
        ensures AtStage(w.conts[h], StageAt(w.pc, i), ContextOf(w, i))
        ensures ContainerTouches(w.conts[h]) ==> w.conts[h].bar.gen % 2 == 1
        ensures StageAt(w.pc, i).Away? || StageAt(w.pc, i).Back? ==> w.conts[h].bar.gen % 2 == 0
      {
        StageSaysWhoseTurn(w.conts[h], StageAt(w.pc, i), ContextOf(w, i));
      }
    } else {
      UnusedIsNobodysTurn(w.conts[h]);
    }
  }

  /** The generation of the container's own barrier says whose the task data is: if
      in some reachable state a process can make a step that touches it, then it is
      the worker in an even generation, and the container or its slave in an odd one.
      So they never meet. */
  lemma OwnershipAlternates(w: Worker, a: Action, h: nat)
    requires Reachable(w) && h < |w.conts| && Touches(w, a, h)
    ensures a == WorkerMove <==> w.conts[h].bar.gen % 2 == 0
  {
    hide Inv, WorkerTouches, ContainerTouches;
    ReachableInv(w);
    TurnsAlternate(w, h);
  }

  /** A descriptor that was there is still there; one that was not may have been
      opened. */
  predicate FdStays(early: StreamFd, late: StreamFd) {
    late == early || (early.Unopened? && late.OpenedAs?)
  }

  /** The limits, names, argv, env and binds are what they were, and so is every
      descriptor that set_task put there; what may have come are descriptors for the
      streams that name files, and an entry behind the environment. */
  predicate Keeps(early: TaskData, late: TaskData) {
    && late.param == early.param
    && FdStays(early.open.stdin, late.open.stdin)
    && FdStays(early.open.stdout, late.open.stdout)
    && FdStays(early.open.stderr, late.open.stderr)
  }

  lemma LocalLeavesParam(c: Container, c': Container)
    requires ContainerLocal(c) == Some(c') || SlaveLocal(c) == Some(c')
    ensures Keeps(c.td, c'.td)
  {
  }

  lemma ContainerLeavesParam(w: Worker, h: nat, w': Worker)
    requires h < |w.conts| && ContainerStep(w, h) == Some(w')
    ensures h < |w'.conts| && Keeps(w.conts[h].td, w'.conts[h].td)
  {
    hide ContainerLocal, ContainerStep;
    ContainerStepInPlace(w, h, w');
    if ContainerLocal(w.conts[h]) == Some(w'.conts[h]) {
      LocalLeavesParam(w.conts[h], w'.conts[h]);
    }
  }

  lemma SlaveLeavesParam(w: Worker, h: nat, w': Worker)
    requires h < |w.conts| && SlaveStep(w, h) == Some(w')
    ensures h < |w'.conts| && Keeps(w.conts[h].td, w'.conts[h].td)
  {
    hide SlaveLocal;
    if SlaveLocal(w.conts[h]) == Some(w'.conts[h]) {
      LocalLeavesParam(w.conts[h], w'.conts[h]);
    }
  }

  lemma OpenLeavesParam(c: Container, fd: nat, c': Container)
    requires OpenNext(c, fd) == Some(c')
    ensures Keeps(c.td, c'.td)
  {
    hide AddPath;
  }

  lemma PrepareLeavesParam(c: Container, c': Container)
    requires Prepares(c, c')
    ensures Keeps(c.td, c'.td)
  {
    hide OpenNext;
    if fd :| OpenNext(c, fd) == Some(c') {
      OpenLeavesParam(c, fd, c');
    }
  }

  lemma OwnLeavesParam(c: Container, h: nat, c': Container)
    requires || (exists o :: Kill(c, o) == Some(c')) || (exists u :: Publish(c, h, u) == Some(c'))
             || Prepares(c, c') || SlaveFails(c) == Some(c') || (exists s :: SlaveEnds(c, s) == Some(c'))
    ensures Keeps(c.td, c'.td)
  {
    if Prepares(c, c') {
      PrepareLeavesParam(c, c');
    } else {
      hide Prepares, OpenNext, AddPath;
    }
  }

  lemma StepLeavesParam(w: Worker, h: nat, a: Action, w': Worker)
    requires Inv(w) && h < |w.conts| && w.conts[h].bar.gen % 2 == 1 && Step(w, a) == Some(w')
    ensures h < |w'.conts| && Keeps(w.conts[h].td, w'.conts[h].td)
  {
    hide Inv, WorkerStep, WorkerTouches, ContainerStep, SlaveStep, CreateFor;
    OnlyTouchesChange(w, a, h, w');
    if Touches(w, a, h) {
      TurnsAlternate(w, h);
      hide Kill, Publish, OpenNext, AddPath, SlaveFails, SlaveEnds, Keeps, ContainerTouches;
      match a
      case ContainerMove(_) => ContainerLeavesParam(w, h, w');
      case SlaveMove(_) => SlaveLeavesParam(w, h, w');
      case KillSlave(_, _) => OwnLeavesParam(w.conts[h], h, w'.conts[h]);
      case PublishResults(_, _) => OwnLeavesParam(w.conts[h], h, w'.conts[h]);
      case SlaveOpens(_, _) => OwnLeavesParam(w.conts[h], h, w'.conts[h]);
      case SlaveAdds(_, _) => OwnLeavesParam(w.conts[h], h, w'.conts[h]);
      case SlaveError(_) => OwnLeavesParam(w.conts[h], h, w'.conts[h]);
      case _ =>
    }
  }

  lemma WorkerGrowsGen(w: Worker, h: nat, w': Worker)
    requires h < |w.conts| && WorkerStep(w) == Some(w')
    ensures h < |w'.conts| && w'.conts[h].bar.gen >= w.conts[h].bar.gen
  {
  }

  lemma LocalGrowsGen(c: Container, c': Container)
    requires ContainerLocal(c) == Some(c') || SlaveLocal(c) == Some(c')
    ensures c'.bar.gen >= c.bar.gen
  {
  }

  lemma ContainerGrowsGen(w: Worker, h: nat, k: nat, w': Worker)
    requires h < |w.conts| && k < |w.conts| && ContainerStep(w, k) == Some(w')
    ensures h < |w'.conts| && w'.conts[h].bar.gen >= w.conts[h].bar.gen
  {
    hide ContainerLocal, ContainerStep;
    ContainerStepInPlace(w, k, w');
    if ContainerLocal(w.conts[k]) == Some(w'.conts[k]) {
      LocalGrowsGen(w.conts[k], w'.conts[k]);
    }
  }

  lemma SlaveGrowsGen(w: Worker, h: nat, k: nat, w': Worker)
    requires h < |w.conts| && k < |w.conts| && SlaveStep(w, k) == Some(w')
    ensures h < |w'.conts| && w'.conts[h].bar.gen >= w.conts[h].bar.gen
  {
    hide SlaveLocal;
    if SlaveLocal(w.conts[k]) == Some(w'.conts[k]) {
      LocalGrowsGen(w.conts[k], w'.conts[k]);
    }
  }

  lemma StepGrowsGen(w: Worker, h: nat, a: Action, w': Worker)
    requires h < |w.conts| && Step(w, a) == Some(w')
    ensures h < |w'.conts| && w'.conts[h].bar.gen >= w.conts[h].bar.gen
  {
    hide WorkerStep, ContainerStep, SlaveStep;
    match a
    case WorkerMove => WorkerGrowsGen(w, h, w');
    case ContainerMove(k) => ContainerGrowsGen(w, h, k, w');
    case SlaveMove(k) => SlaveGrowsGen(w, h, k, w');
    case _ =>
  }

  lemma {:induction false} RunLeavesParam(w: Worker, h: nat, actions: seq<Action>, w': Worker)
    requires Inv(w) && h < |w.conts| && w.conts[h].bar.gen % 2 == 1 && Run(w, actions) == Some(w')
    ensures Inv(w') && h < |w'.conts| && w'.conts[h].bar.gen >= w.conts[h].bar.gen
    ensures w'.conts[h].bar.gen == w.conts[h].bar.gen ==> Keeps(w.conts[h].td, w'.conts[h].td)
  {
    hide Inv, Step;
    if actions != [] {
      var front, a := actions[..|actions| - 1], actions[|actions| - 1];
      var w1 := Run(w, front).value;
      RunLeavesParam(w, h, front, w1);
      StepKeepsInv(w1, a, w');
      StepGrowsGen(w1, h, a, w');
      if w1.conts[h].bar.gen == w.conts[h].bar.gen {
        StepLeavesParam(w1, h, a, w');
      }
    }
  }

  /** All through the container's turn, whatever anybody does, its task stays what the
      worker wrote, but for what the slave opens and adds. */
  lemma TaskStaysPut(w: Worker, h: nat, w': Worker)
    requires Reachable(w) && Leads(w, w') && h < |w.conts| && w.conts[h].bar.gen % 2 == 1
    ensures h < |w'.conts| && w'.conts[h].bar.gen >= w.conts[h].bar.gen
    ensures w'.conts[h].bar.gen == w.conts[h].bar.gen ==> Keeps(w.conts[h].td, w'.conts[h].td)
  {
    hide Inv, Step;
    ReachableInv(w);
    var actions :| Run(w, actions) == Some(w');
    RunLeavesParam(w, h, actions, w');
  }
}
