/** A measure over the program counters of the worker, its containers and their
    slaves that every step makes smaller, and what follows from it: every request
    is answered after a bounded number of steps. */
module ProtocolTermination {
  import opened TaskModel
  import opened Barriers
  import opened Protocol
  import opened ProtocolInvariant
  import opened ContainerPreservation
  import opened WorkerPreservation
  import opened ProtocolPreservation
  import opened ProtocolSafety
  import opened ProtocolProgress

  /** Steps a slave may still make. */
  function SlaveRank(s: Slave): nat {
    if !Alive(s) then 0
    else
      match s.pc
      case SArrive => 10
      case SWait(_) => 9
      case SClear => 8
      case SOpen(k) => if k >= 2 then 5 else 7 - k
      case SAddPath => 4
      case SLoad => 3
      case SExec(_) => 2
      case SFailed => 1
  }

  /** Steps a container may still make before it waits for its next task. */
  function PcRank(pc: ContainerPc, gen: nat): nat {
    match pc
    case CTaskWait(t) => if t < gen then 28 else 1
    case CMakeCpuacct => 27
    case CMakeMemory => 26
    case CFork => 25
    case CRunArrive => 13
    case CRunWait(_) => 12
    case CSupervise => 11
    case CPublish => 10
    case CCheck => 9
    case CDropCpuacct => 8
    case CDropMemory => 7
    case CResultArrive => 6
    case CResultWait(_) => 5
    case CLoop => 4
    case CStart => 3
    case CTaskArrive => 2
    case CExited => 0
  }

  function ContainerRank(c: Container): nat {
    PcRank(c.pc, c.bar.gen) + SlaveRank(c.slave)
  }

  function TotalRank(conts: seq<Container>): nat {
    if conts == [] then 0 else TotalRank(conts[..|conts| - 1]) + ContainerRank(conts[|conts| - 1])
  }

  /** Tasks whose container has still to go through a whole round. */
  function Due(w: Worker): int {
    match w.pc
    case WPrepare(_) => |w.tasks|
    case WReset => |w.tasks|
    case WWrite(_) => |w.tasks|
    case WReleaseArrive(i) => |w.tasks| - i
    case WReleaseWait(i, t) => |w.tasks| - i - (if MetAt(w, i, t) then 1 else 0)
    case _ => 0
  }

  function WorkerRank(w: Worker): int {
    var n, m := |w.tasks|, |w.temporary|;
    match w.pc
    case WIdle => 0
    case WReap(j) => 2 * (m - j)
    case WReturnId(j) => 2 * (m - j) + 1
    case WPut(i) => 2 * n + 3 * (n - i)
    case WCollectWait(i, _) => 2 * n + 3 * (n - i) + 1
    case WCollectArrive(i) => 2 * n + 3 * (n - i) + 2
    case WClose => 5 * n + 3
    case WStartWait(_) => 5 * n + 4
    case WStartArrive => 5 * n + 5
    case WReleaseWait(i, _) => 5 * n + 2 * (n - i) + 5
    case WReleaseArrive(i) => 5 * n + 2 * (n - i) + 6
    case WWrite(i) => 7 * n + (n - i) + 7
    case WReset => 8 * n + 8
    case WPrepare(_) => 8 * n + 4 * (n - |w.containers|) + 9
  }

  function Measure(w: Worker): int {
    30 * Due(w) + WorkerRank(w) + TotalRank(w.conts)
  }

  lemma {:induction false} TotalAfterUpdate(conts: seq<Container>, h: nat, c': Container)
    requires h < |conts|
    ensures TotalRank(conts[h := c']) == TotalRank(conts) - ContainerRank(conts[h]) + ContainerRank(c')
  {
    hide ContainerRank;
    var front, conts' := conts[..|conts| - 1], conts[h := c'];
    if h == |conts| - 1 {
      assert conts'[..|conts'| - 1] == front;
    } else {
      assert conts'[..|conts'| - 1] == front[h := c'];
      TotalAfterUpdate(front, h, c');
    }
  }

  lemma TotalAfterCreate(conts: seq<Container>, c: Container)
    ensures TotalRank(conts + [c]) == TotalRank(conts) + ContainerRank(c)
  {
    assert (conts + [c])[..|conts|] == conts;
  }

  lemma MeasureIsNatural(w: Worker)
    requires Lengths(w)
    ensures Measure(w) >= 0
  {
  }

  // --------------------------------------------------- steps of a container

  /** A step that changes one container and nothing the worker's rank sees. */
  lemma ContainerStepDescends(w: Worker, h: nat, c': Container, w': Worker)
    requires h < |w.conts| && c'.bar == w.conts[h].bar && ContainerRank(c') < ContainerRank(w.conts[h])
    requires w' == w.(conts := w.conts[h := c'], run := w'.run)
    ensures Measure(w') < Measure(w)
  {
    hide ContainerRank;
    TotalAfterUpdate(w.conts, h, c');
  }

  /** A container that calls wait for its task and finds the worker there. */
  lemma WorkerAwaitsTask(c: Container, st: Stage, x: Context)
    requires AtStage(c, st, x) && c.pc == CTaskArrive && WorkerSide in c.bar.arrived
    ensures st == Handing(c.bar.gen) && BarOk(c, true)
  {
    hide JudgedIn, Fresh;
  }

  lemma NobodyAwaitsTask(c: Container, st: Stage, x: Context)
    requires AtStage(c, st, x) && c.pc == CTaskArrive && WorkerSide !in c.bar.arrived
    ensures BarOk(c, false)
  {
    hide JudgedIn, Fresh;
  }

  lemma ArrivalAlone(w: Worker, h: nat)
    requires Staged(w) && h < |w.conts| && w.conts[h].pc == CTaskArrive && WorkerSide !in w.conts[h].bar.arrived
    ensures w.conts[h].bar.Arrive(ContainerSide).gen == w.conts[h].bar.gen
  {
    hide AtStage;
    var c := w.conts[h];
    if h in w.containers {
      var i :| 0 <= i < |w.containers| && w.containers[i] == h;
      NobodyAwaitsTask(c, StageAt(w.pc, i), ContextOf(w, i));
    }
    ContainerArrives(c, false);
  }

  /** If the container's arrival hands the task over, it is the task the worker is
      waiting to hand over. */
  lemma ArrivalTogether(w: Worker, h: nat)
    requires Staged(w) && h < |w.conts| && w.conts[h].pc == CTaskArrive && WorkerSide in w.conts[h].bar.arrived
    ensures w.conts[h].bar.Arrive(ContainerSide).gen == w.conts[h].bar.gen + 1
    ensures w.pc.WReleaseWait? && w.pc.i < |w.containers| && w.containers[w.pc.i] == h
    ensures w.pc.ticket == w.conts[h].bar.gen
  {
    hide AtStage;
    var c := w.conts[h];
    assert h in w.containers by {
      assert !BarOk(c, false);
    }
    var i :| 0 <= i < |w.containers| && w.containers[i] == h;
    WorkerAwaitsTask(c, StageAt(w.pc, i), ContextOf(w, i));
    ContainerArrives(c, true);
  }

  lemma TaskArrivalRank(c: Container, c': Container)
    requires c.pc == CTaskArrive && ContainerLocal(c) == Some(c')
    ensures c'.bar == c.bar.Arrive(ContainerSide)
    ensures ContainerRank(c') == ContainerRank(c) + (if c'.bar.gen > c.bar.gen then 26 else -1)
  {
  }

  lemma OneLessDue(w: Worker, h: nat, c': Container)
    requires h < |w.conts| && c'.bar.gen == w.conts[h].bar.gen + 1
    requires w.pc.WReleaseWait? && w.pc.i < |w.containers| && w.containers[w.pc.i] == h
             && w.pc.ticket == w.conts[h].bar.gen
    ensures Due(w.(conts := w.conts[h := c'])) == Due(w) - 1
  {
  }

  lemma TaskArrivalDescends(w: Worker, h: nat, c': Container)
    requires Inv(w) && h < |w.conts| && w.conts[h].pc == CTaskArrive && ContainerLocal(w.conts[h]) == Some(c')
    ensures Measure(w.(conts := w.conts[h := c'])) < Measure(w)
  {
    hide Shape, Staged, RunOk, ContainerLocal, ContainerRank, Due, Barrier.Arrive;
    TaskArrivalRank(w.conts[h], c');
    TotalAfterUpdate(w.conts, h, c');
    if WorkerSide in w.conts[h].bar.arrived {
      ArrivalTogether(w, h);
      OneLessDue(w, h, c');
    } else {
      ArrivalAlone(w, h);
      LaterBarrierIsNoMoreDue(w, h, c');
    }
  }

  lemma ResultArrivalRank(c: Container, c': Container)
    requires c.pc == CResultArrive && ContainerLocal(c) == Some(c')
    ensures ContainerRank(c') < ContainerRank(c) && c'.bar.gen >= c.bar.gen
  {
  }

  lemma LaterBarrierIsNoMoreDue(w: Worker, h: nat, c': Container)
    requires h < |w.conts| && c'.bar.gen >= w.conts[h].bar.gen
    ensures Due(w.(conts := w.conts[h := c'])) <= Due(w)
  {
  }

  lemma ResultArrivalDescends(w: Worker, h: nat, c': Container)
    requires h < |w.conts| && w.conts[h].pc == CResultArrive && ContainerLocal(w.conts[h]) == Some(c')
    ensures Measure(w.(conts := w.conts[h := c'])) < Measure(w)
  {
    hide ContainerLocal, ContainerRank, Due;
    ResultArrivalRank(w.conts[h], c');
    LaterBarrierIsNoMoreDue(w, h, c');
    TotalAfterUpdate(w.conts, h, c');
  }

  lemma ContainerLocalDescends(c: Container, c': Container)
    requires ContainerLocal(c) == Some(c') && c.pc != CTaskArrive && c.pc != CResultArrive
    ensures c'.bar == c.bar && ContainerRank(c') < ContainerRank(c)
  {
  }

  /** A container's rank falls as it forks and passes through the start. */
  lemma TouchDescends(c: Container, c': Container, forked: Slave, ticket: nat)
    requires Touched(c, c', forked, ticket) && forked.Slave? && forked.pc == SArrive
    ensures c'.bar == c.bar && ContainerRank(c') < ContainerRank(c)
  {
  }

  lemma OtherIsLocal(w: Worker, h: nat, w': Worker)
    requires h < |w.conts| && ContainerStep(w, h) == Some(w') && !TouchesTheRun(w.conts[h].pc)
    ensures w' == w.(conts := w.conts[h := w'.conts[h]]) && ContainerLocal(w.conts[h]) == Some(w'.conts[h])
  {
    hide ContainerLocal;
  }

  lemma ContainerMoveDescends(w: Worker, h: nat, w': Worker)
    requires Inv(w) && h < |w.conts| && ContainerStep(w, h) == Some(w') && !w'.failed
    ensures Measure(w') < Measure(w)
  {
    hide Inv, Measure, ContainerStep, ContainerLocal, ContainerRank;
    var c := w.conts[h];
    if TouchesTheRun(c.pc) {
      TouchInPlace(w, h, w');
      TouchDescends(c, w'.conts[h], Slave(SArrive, None, w.fds, w.request), w.run.gen);
      ContainerStepDescends(w, h, w'.conts[h], w');
      return;
    }
    OtherIsLocal(w, h, w');
    var c' := w'.conts[h];
    if c.pc == CTaskArrive {
      TaskArrivalDescends(w, h, c');
    } else if c.pc == CResultArrive {
      ResultArrivalDescends(w, h, c');
    } else {
      ContainerLocalDescends(c, c');
      ContainerStepDescends(w, h, c', w');
    }
  }

  lemma SlaveLocalDescends(c: Container, c': Container)
    requires SlaveLocal(c) == Some(c')
    ensures c'.bar == c.bar && ContainerRank(c') < ContainerRank(c)
  {
  }

  lemma SlaveMoveDescends(w: Worker, h: nat, w': Worker)
    requires h < |w.conts| && SlaveStep(w, h) == Some(w')
    ensures Measure(w') < Measure(w)
  {
    hide Measure, SlaveLocal;
    if SlaveLocal(w.conts[h]).Some? {
      SlaveLocalDescends(w.conts[h], SlaveLocal(w.conts[h]).value);
    }
    ContainerStepDescends(w, h, w'.conts[h], w');
  }

  lemma PrepareDescends(c: Container, c': Container)
    requires Prepares(c, c')
    ensures c'.bar == c.bar && ContainerRank(c') < ContainerRank(c)
  {
  }

  lemma EnvironmentDescends(w: Worker, h: nat, c': Container)
    requires h < |w.conts|
    requires (exists over :: Kill(w.conts[h], over) == Some(c'))
          || Prepares(w.conts[h], c') || SlaveFails(w.conts[h]) == Some(c')
          || (exists s :: SlaveEnds(w.conts[h], s) == Some(c')) || (exists o :: Publish(w.conts[h], h, o) == Some(c'))
    ensures Measure(w.(conts := w.conts[h := c'])) < Measure(w)
  {
    hide Measure;
    if Prepares(w.conts[h], c') {
      PrepareDescends(w.conts[h], c');
    } else {
      hide Prepares, OpenNext, AddPath;
    }
    ContainerStepDescends(w, h, c', w.(conts := w.conts[h := c']));
  }

  // ---------------------------------------------------- steps of the worker

  lemma HandingRank(c: Container, x: Context)
    requires AtStage(c, Filled, x)
    ensures var b := c.bar.Arrive(WorkerSide);
            ContainerRank(c.(bar := b)) <= ContainerRank(c) + (if b.gen > c.bar.gen then 27 else 0)
  {
    hide JudgedIn, Fresh;
    WorkerArrives(c);
  }

  lemma FetchingRank(c: Container, x: Context)
    requires AtStage(c, Lent, x)
    ensures ContainerRank(c.(bar := c.bar.Arrive(WorkerSide))) == ContainerRank(c)
  {
    hide JudgedIn, Fresh, AfterOpen, BeforeOpen;
    WorkerArrives(c);
  }

  /** The worker calls wait on a container's barrier: if that hands the task over,
      one task less is due. */
  lemma HandTaskDescends(w: Worker, i: nat)
    requires Inv(w) && i < |w.tasks| && i < |w.containers| && w.pc == WReleaseArrive(i)
    ensures Measure(Met(w, i, WReleaseWait(i, w.conts[w.containers[i]].bar.gen))) < Measure(w)
  {
    hide RunOk, PipesOk, AssignedOk, IdsOk, AtStage, ContainerRank;
    var c := w.conts[w.containers[i]];
    HandingRank(c, ContextOf(w, i));
    TotalAfterUpdate(w.conts, w.containers[i], c.(bar := c.bar.Arrive(WorkerSide)));
  }

  lemma AskResultDescends(w: Worker, i: nat)
    requires Inv(w) && i < |w.tasks| && i < |w.containers| && w.pc == WCollectArrive(i)
    ensures Measure(Met(w, i, WCollectWait(i, w.conts[w.containers[i]].bar.gen))) < Measure(w)
  {
    hide RunOk, PipesOk, AssignedOk, IdsOk, AtStage, ContainerRank;
    var c := w.conts[w.containers[i]];
    FetchingRank(c, ContextOf(w, i));
    TotalAfterUpdate(w.conts, w.containers[i], c.(bar := c.bar.Arrive(WorkerSide)));
  }

  lemma GiveBackDescends(w: Worker, j: nat, w': Worker)
    requires Lengths(w) && w.pc == WReturnId(j) && GiveBack(w, j) == Some(w')
    ensures Measure(w') < Measure(w)
  {
    if j < |w.temporary| {
      var h := w.temporary[j];
      TotalAfterUpdate(w.conts, h, w.conts[h].(held := false));
    }
  }

  lemma WriteDescends(w: Worker, i: nat, w': Worker)
    requires Lengths(w) && w.pc == WWrite(i) && Write(w, i) == Some(w')
    ensures Measure(w') < Measure(w)
  {
    if i < |w.tasks| {
      TotalAfterUpdate(w.conts, w.containers[i], w'.conts[w.containers[i]]);
    }
  }

  lemma PrepareMoveDescends(w: Worker, w': Worker)
    requires Lengths(w) && WorkerStep(w) == Some(w') && w'.conts == w.conts
    requires w.pc.WPrepare? || w.pc == WReset || w.pc.WReleaseArrive? || w.pc.WReleaseWait?
    ensures Measure(w') < Measure(w)
  {
    hide TotalRank;
  }

  lemma CollectMoveDescends(w: Worker, w': Worker)
    requires Lengths(w) && WorkerStep(w) == Some(w') && w'.conts == w.conts
    requires w.pc.WCollectArrive? || w.pc.WCollectWait? || w.pc.WPut? || w.pc.WReap?
    ensures Measure(w') < Measure(w)
  {
    hide TotalRank;
  }

  lemma StartMoveDescends(w: Worker, w': Worker)
    requires Lengths(w) && WorkerStep(w) == Some(w')
    requires w.pc == WStartArrive || w.pc.WStartWait? || w.pc == WClose
    ensures Measure(w') < Measure(w)
  {
    hide TotalRank;
  }

  lemma WorkerMoveDescends(w: Worker, w': Worker)
    requires Inv(w) && WorkerStep(w) == Some(w')
    ensures Measure(w') < Measure(w)
  {
    hide StagesOk, RunOk, AssignedOk, PeakOk, IdsOk, PipesOk, RepliesUpTo, HistoryOk, CountersOk, Measure;
    match w.pc
    case WWrite(i) => WriteDescends(w, i, w');
    case WReturnId(j) => GiveBackDescends(w, j, w');
    case WReleaseArrive(i) =>
      if i < |w.containers| { HandTaskDescends(w, i); } else { PrepareMoveDescends(w, w'); }
    case WCollectArrive(i) =>
      if i < |w.tasks| { AskResultDescends(w, i); } else { CollectMoveDescends(w, w'); }
    case WCollectWait(_, _) => CollectMoveDescends(w, w');
    case WPut(_) => CollectMoveDescends(w, w');
    case WReap(_) => CollectMoveDescends(w, w');
    case WPrepare(_) => PrepareMoveDescends(w, w');
    case WReset => PrepareMoveDescends(w, w');
    case WReleaseWait(_, _) => PrepareMoveDescends(w, w');
    case WIdle =>
    case _ => StartMoveDescends(w, w');
  }

  lemma CreateDescends(w: Worker, id: int, w': Worker)
    requires CreateFor(w, id) == Some(w')
    ensures Measure(w') < Measure(w)
  {
    TotalAfterCreate(w.conts, NewContainer(id, Eligible(w.tasks[|w.containers|])));
  }

  /** Every step of the protocol makes the measure smaller. */
  lemma AnyStepDescends(w: Worker, a: Action, w': Worker)
    requires Inv(w) && Internal(a) && Step(w, a) == Some(w') && !w'.failed
    ensures 0 <= Measure(w') < Measure(w)
  {
    hide Inv, Measure;
    assert Lengths(w') by {
      StepKeepsInv(w, a, w');
      LengthsOf(w');
    }
    MeasureIsNatural(w');
    match a
    case Create(id) => CreateDescends(w, id, w');
    case WorkerMove => WorkerMoveDescends(w, w');
    case ContainerMove(h) => ContainerMoveDescends(w, h, w');
    case KillSlave(h, over) => EnvironmentDescends(w, h, w'.conts[h]);
    case SlaveOpens(h, fd) => EnvironmentDescends(w, h, w'.conts[h]);
    case SlaveAdds(h, extra) => EnvironmentDescends(w, h, w'.conts[h]);
    case PublishResults(h, usage) => EnvironmentDescends(w, h, w'.conts[h]);
    case SlaveMove(h) => SlaveMoveDescends(w, h, w');
    case SlaveError(h) => EnvironmentDescends(w, h, w'.conts[h]);
    case SlaveEnd(h, status) => EnvironmentDescends(w, h, w'.conts[h]);
    case _ =>
  }

  lemma LengthsOf(w: Worker)
    requires Inv(w)
    ensures Lengths(w)
  {
  }

  // ---------------------------------------------------------------- answers

  /** A run of the protocol's own steps is no longer than the measure it starts
      with. */
  lemma {:induction false} RunDescends(w: Worker, actions: seq<Action>, w': Worker)
    requires Inv(w) && Run(w, actions) == Some(w') && !w'.failed
    requires forall k :: 0 <= k < |actions| ==> Internal(actions[k])
    ensures Inv(w') && |actions| + Measure(w') <= Measure(w)
  {
    hide Inv, Measure;
    if actions != [] {
      var front := actions[..|actions| - 1];
      var w1 := Run(w, front).value;
      RunDescends(w, front, w1);
      AnyStepDescends(w1, actions[|actions| - 1], w');
      StepKeepsInv(w1, actions[|actions| - 1], w');
    }
  }

  /** A run of n steps without a new request. */
  ghost predicate InternalRun(w: Worker, n: nat, w': Worker) {
    exists actions :: |actions| == n && (forall k :: 0 <= k < n ==> Internal(actions[k])) && Run(w, actions) == Some(w')
  }

  /** Whatever process makes a step, the measure falls. */
  lemma StepDescends(w: Worker, a: Action, w': Worker)
    requires Reachable(w) && Internal(a) && Step(w, a) == Some(w') && !w'.failed
    ensures 0 <= Measure(w') < Measure(w)
  {
    hide Inv, Step, Measure;
    ReachableInv(w);
    AnyStepDescends(w, a, w');
  }

  /** Without a new request there are at most as many steps as the measure says. */
  lemma RunsAreBounded(w: Worker, n: nat, w': Worker)
    requires Reachable(w) && InternalRun(w, n, w') && !w'.failed
    ensures Measure(w') >= 0 && n + Measure(w') <= Measure(w)
  {
    hide Inv, Step, Measure;
    ReachableInv(w);
    var actions :| |actions| == n && (forall k :: 0 <= k < n ==> Internal(actions[k])) && Run(w, actions) == Some(w');
    RunDescends(w, actions, w');
    LengthsOf(w');
    MeasureIsNatural(w');
  }

  lemma UnusedRank(c: Container)
    requires Unused(c)
    ensures ContainerRank(c) <= if c.permanent then 5 else 0
  {
  }

  lemma {:induction false} IdleRank(conts: seq<Container>)
    requires forall h :: 0 <= h < |conts| ==> ContainerRank(conts[h]) <= 5
    ensures TotalRank(conts) <= 5 * |conts|
  {
    hide ContainerRank;
    if conts != [] {
      IdleRank(conts[..|conts| - 1]);
    }
  }

  lemma {:induction false} RunConcat(w: Worker, front: seq<Action>, back: seq<Action>)
    requires Run(w, front).Some?
    ensures Run(w, front + back) == Run(Run(w, front).value, back)
  {
    if back == [] {
      assert front + back == front;
    } else {
      assert (front + back)[..|front + back| - 1] == front + back[..|back| - 1];
      RunConcat(w, front, back[..|back| - 1]);
    }
  }

  lemma {:induction false} AcceptedInternally(front: seq<Action>, back: seq<Action>)
    requires forall k :: 0 <= k < |back| ==> Internal(back[k])
    ensures Accepted(front + back) == Accepted(front)
  {
    if back == [] {
      assert front + back == front;
    } else {
      assert (front + back)[..|front + back| - 1] == front + back[..|back| - 1];
      assert (front + back)[|front + back| - 1] == back[|back| - 1];
      AcceptedInternally(front, back[..|back| - 1]);
    }
  }

  /** A run from an idle worker that accepts one request and is idle again has
      added exactly that request's response. */
  lemma OneMoreResponse(before: seq<Action>, w: Worker, tasks: seq<Task>, actions: seq<Action>, w': Worker)
    requires Run(INITIAL, before) == Some(w) && w.pc == WIdle && w'.pc == WIdle
    requires Run(INITIAL, before + [Accept(tasks)] + actions) == Some(w')
    requires forall k :: 0 <= k < |actions| ==> Internal(actions[k])
    ensures |w'.responses| == |w.responses| + 1
    ensures var r := w'.responses[|w.responses|]; ResponseOk(r) && r.tasks == tasks
  {
    hide Run;
    var now := before + [Accept(tasks)];
    assert now[..|now| - 1] == before && now[|now| - 1] == Accept(tasks);
    AcceptedInternally(now, actions);
    ResponsesAnswerRequests(before, w);
    ResponsesAnswerRequests(now + actions, w');
    InvariantHolds(now + actions, w');
  }

  /** A request of n tasks is over after at most 42n + 9 steps of its own, and what
      is left to do from before, whatever the interleaving. */
  lemma RequestsComeToAnEnd(w: Worker, tasks: seq<Task>, w0: Worker, n: nat, w': Worker)
    requires Reachable(w) && Step(w, Accept(tasks)) == Some(w0) && InternalRun(w0, n, w') && !w'.failed
    ensures n <= 42 * |tasks| + 9 + 5 * |w.conts|
  {
    hide Inv, Measure;
    ReachableInv(w);
    AcceptedMeasure(w, tasks, w0);
    StepKeepsInv(w, Accept(tasks), w0);
    var actions :| |actions| == n && (forall k :: 0 <= k < n ==> Internal(actions[k])) && Run(w0, actions) == Some(w');
    RunDescends(w0, actions, w');
    LengthsOf(w');
    MeasureIsNatural(w');
  }

  /** And when nobody can go on, the request has been answered, unless a slave failed. */
  lemma RequestsAreAnswered(w: Worker, tasks: seq<Task>, w0: Worker, n: nat, w': Worker)
    requires Reachable(w) && Step(w, Accept(tasks)) == Some(w0) && InternalRun(w0, n, w') && !w'.failed
    requires !CanAdvance(w') && !Broken(w')
    ensures w'.pc == WIdle && |w'.responses| == |w.responses| + 1
    ensures var r := w'.responses[|w.responses|]; ResponseOk(r) && r.tasks == tasks
  {
    hide Inv, Broken, CanAdvance, ResponseOk, Measure;
    var before :| Run(INITIAL, before) == Some(w);
    var actions :| |actions| == n && (forall k :: 0 <= k < n ==> Internal(actions[k])) && Run(w0, actions) == Some(w');
    InvariantHolds(before, w);
    StepKeepsInv(w, Accept(tasks), w0);
    RunDescends(w0, actions, w');
    if w'.pc != WIdle {
      ProgressFromInv(w');
    }
    var now := before + [Accept(tasks)];
    assert now[..|now| - 1] == before && now[|now| - 1] == Accept(tasks);
    RunConcat(INITIAL, now, actions);
    OneMoreResponse(before, w, tasks, actions, w');
  }

  lemma AcceptedMeasure(w: Worker, tasks: seq<Task>, w0: Worker)
    requires Inv(w) && Step(w, Accept(tasks)) == Some(w0)
    ensures Measure(w0) <= 42 * |tasks| + 9 + 5 * |w.conts|
  {
    hide Unused, RunOk, AssignedOk, PipesOk, IdsOk;
    forall h | 0 <= h < |w.conts| ensures ContainerRank(w.conts[h]) <= 5 {
      UnusedRank(w.conts[h]);
    }
    IdleRank(w.conts);
  }
}
