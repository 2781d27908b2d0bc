/** What the steps of a container and of its slave keep, seen from that container:
    the place in the round that the worker's program counter calls for. */
module ContainerPreservation {
  import opened TaskModel
  import opened Barriers
  import opened Protocol
  import opened ProtocolInvariant

  /** The container's steps that look beyond the container. */
  predicate TouchesTheRun(pc: ContainerPc) {
    pc == CFork || pc == CRunArrive || pc.CRunWait? || pc == CCheck
  }

  /** What they may make of the container. */
  predicate Touched(c: Container, c': Container, forked: Slave, ticket: nat) {
    || (c.pc == CFork && c' == c.(slave := forked, pc := CRunArrive))
    || (c.pc == CRunArrive && c' == c.(pc := CRunWait(ticket)))
    || (c.pc.CRunWait? && c' == c.(pc := CSupervise))
    || (c.pc == CCheck && c' == c.(pc := CDropCpuacct))
  }

  lemma TouchInPlace(w: Worker, h: nat, w': Worker)
    requires h < |w.conts| && ContainerStep(w, h) == Some(w') && TouchesTheRun(w.conts[h].pc)
    ensures w' == w.(failed := true)
         || (&& w' == w.(conts := w.conts[h := w'.conts[h]], run := w'.run)
             && Touched(w.conts[h], w'.conts[h], Slave(SArrive, None, w.fds, w.request), w.run.gen))
  {
    hide ContainerLocal;
  }

  /** A step of container h leaves all others alone; it is either local or leaves
      h's id, controllers, barrier and task data alone. */
  lemma ContainerStepInPlace(w: Worker, h: nat, w': Worker)
    requires h < |w.conts| && ContainerStep(w, h) == Some(w')
    ensures w'.conts == w.conts[h := w'.conts[h]]
    ensures var c, c' := w.conts[h], w'.conts[h];
            || ContainerLocal(c) == Some(c')
            || (&& TouchesTheRun(c.pc) && c'.id == c.id && c'.held == c.held && c'.td == c.td && c'.bar == c.bar
                && c'.cpuacct == c.cpuacct && c'.memory == c.memory)
  {
    if TouchesTheRun(w.conts[h].pc) {
      TouchInPlace(w, h, w');
      hide ContainerStep, ContainerLocal;
    } else {
      hide ContainerLocal;
    }
  }

  // ------------------------------------------------- one container's steps

  lemma BothSidesRelease(b: Barrier<Side>, other: Side, me: Side)
    requires b.count == 2 && b.arrived == {other} && me != other
    ensures b.Arrive(me) == Barrier(2, {}, b.gen + 1)
  {
    assert |{other} + {me}| == 2;
  }

  lemma FirstSideWaits(b: Barrier<Side>, me: Side)
    requires b.count == 2 && b.arrived == {}
    ensures b.Arrive(me) == Barrier(2, {me}, b.gen)
  {
    assert {} + {me} == {me};
    assert |{me}| == 1;
  }

  lemma WorkingMoves(c: Container, x: Context, c': Container)
    requires Working(c, x) && c.pc != CResultArrive && ContainerLocal(c) == Some(c')
    ensures Working(c', x) && c'.bar == c.bar && !Waiting(c) && !Waiting(c')
  {
  }

  lemma ReadyMoves(c: Container, c': Container)
    requires Ready(c) && c.pc != CTaskArrive && ContainerLocal(c) == Some(c')
    ensures Ready(c') && c'.bar == c.bar && c'.td == c.td && !Waiting(c) && !Waiting(c')
  {
  }

  lemma RetiredMoves(c: Container, c': Container)
    requires Retired(c) && ContainerLocal(c) == Some(c')
    ensures Retired(c') && c'.bar == c.bar && c'.td == c.td && !Waiting(c) && !Waiting(c')
  {
  }

  /** Wherever the worker stands, a step of the container that is not an arrival
      at its barrier leaves it where the worker expects it. */
  lemma ContainerMoves(c: Container, st: Stage, x: Context, c': Container)
    requires AtStage(c, st, x) && c.pc != CTaskArrive && c.pc != CResultArrive
    requires ContainerLocal(c) == Some(c')
    ensures AtStage(c', st, x)
  {
    hide Judged;
    assert c'.permanent == c.permanent;
    if c.bar.gen % 2 == 1 {
      WorkingMoves(c, x, c');
    } else if Ready(c) {
      ReadyMoves(c, c');
    } else {
      RetiredMoves(c, c');
    }
  }

  lemma ContainerArrives(c: Container, workerWaits: bool)
    requires BarOk(c, workerWaits) && !Waiting(c)
    ensures c.bar.Arrive(ContainerSide) ==
            if workerWaits then Barrier(2, {}, c.bar.gen + 1) else Barrier(2, {ContainerSide}, c.bar.gen)
  {
    if workerWaits {
      BothSidesRelease(c.bar, WorkerSide, ContainerSide);
    } else {
      FirstSideWaits(c.bar, ContainerSide);
    }
  }

  /** The container calls wait for its task before the worker does. */
  lemma TaskArrivalFirst(c: Container, c': Container)
    requires Ready(c) && BarOk(c, false) && c.pc == CTaskArrive && ContainerLocal(c) == Some(c')
    ensures Ready(c') && BarOk(c', false) && c'.td == c.td && c'.bar.gen == c.bar.gen
  {
    ContainerArrives(c, false);
  }

  /** The container calls wait for its task and finds the worker there. */
  lemma TaskArrivalSecond(c: Container, x: Context, c': Container)
    requires Ready(c) && BarOk(c, true) && c.pc == CTaskArrive && ContainerLocal(c) == Some(c')
    requires Fresh(c, x.task) && c.td.error && !x.started
    ensures Working(c', x) && BarOk(c', false) && c'.bar.gen == c.bar.gen + 1
  {
    ContainerArrives(c, true);
  }

  lemma ContainerTakesTask(c: Container, st: Stage, x: Context, c': Container)
    requires AtStage(c, st, x) && c.pc == CTaskArrive && ContainerLocal(c) == Some(c')
    requires st.Handing? ==> !x.started
    ensures AtStage(c', st, x)
  {
    if st.Handing? {
      TaskArrivalSecond(c, x, c');
    } else {
      TaskArrivalFirst(c, c');
    }
  }

  lemma ResultArrivalFirst(c: Container, x: Context, c': Container)
    requires Working(c, x) && BarOk(c, false) && c.pc == CResultArrive && ContainerLocal(c) == Some(c')
    ensures Working(c', x) && BarOk(c', false) && c'.bar.gen == c.bar.gen
  {
    ContainerArrives(c, false);
  }

  lemma ResultArrivalSecond(c: Container, x: Context, c': Container)
    requires Working(c, x) && BarOk(c, true) && c.pc == CResultArrive && ContainerLocal(c) == Some(c')
    ensures Finished(c') && BarOk(c', false) && JudgedIn(c', x) && c'.bar.gen == c.bar.gen + 1
  {
    ContainerArrives(c, true);
  }

  lemma ContainerHandsBack(c: Container, st: Stage, x: Context, c': Container)
    requires AtStage(c, st, x) && c.pc == CResultArrive && ContainerLocal(c) == Some(c')
    ensures AtStage(c', st, x)
  {
    if st.Fetching? {
      ResultArrivalSecond(c, x, c');
    } else {
      ResultArrivalFirst(c, x, c');
    }
  }

  /** A container the request does not use stays unused. */
  lemma UnusedMoves(c: Container, c': Container)
    requires Unused(c) && ContainerLocal(c) == Some(c')
    ensures Unused(c')
  {
    if c.pc == CTaskArrive {
      TaskArrivalFirst(c, c');
    } else {
      ReadyMoves(c, c');
    }
  }

  // ------------------------------------- steps of a container at its work

  lemma ForkMove(c: Container, st: Stage, x: Context, w: Worker)
    requires AtStage(c, st, x) && c.pc == CFork && x.fds == w.fds && x.request == w.request
    ensures AtStage(Fork(w, c), st, x)
  {
    var c' := Fork(w, c);
    assert Working(c, x) && Working(c', x);
  }

  lemma PassStart(c: Container, st: Stage, x: Context, c': Container)
    requires AtStage(c, st, x) && c.pc.CRunWait? && c.pc.ticket < x.runGen && c' == c.(pc := CSupervise)
    ensures AtStage(c', st, x)
  {
    assert Working(c, x) && Working(c', x);
  }

  lemma KillMove(c: Container, st: Stage, x: Context, over: Overrun, c': Container)
    requires AtStage(c, st, x) && Kill(c, over) == Some(c')
    ensures AtStage(c', st, x)
  {
    assert Working(c, x) && Working(c', x);
  }

  lemma PublishMove(c: Container, st: Stage, x: Context, usage: Observation, c': Container)
    requires AtStage(c, st, x) && Publish(c, x.h, usage) == Some(c')
    ensures AtStage(c', st, x)
  {
    hide WithUsage, WithStatus, Judge;
    PublishIsVerdictIff(BLANK, x.task);
    var obs := usage.(status := c.status);
    assert Working(c, x);
    assert WithUsage(WithStatus(BLANK, obs.status), x.task, obs) == Judge(x.task, obs);
    assert Working(c', x);
  }

  lemma CheckMove(c: Container, st: Stage, x: Context, c': Container)
    requires AtStage(c, st, x) && c.pc == CCheck && Check(c) == Some(c')
    ensures AtStage(c', st, x)
  {
    assert Working(c, x) && Working(c', x);
  }

  // --------------------------------------------------------- slave's steps

  /** A living slave exists only while its container works, between the fork and
      the moment wait_for_slave has killed everything. */
  lemma AliveMeansWorking(c: Container, st: Stage, x: Context)
    requires AtStage(c, st, x) && Alive(c.slave)
    ensures Working(c, x) && (c.pc == CRunArrive || c.pc.CRunWait? || c.pc == CSupervise)
    ensures BeforeOpen(c, x) || AfterOpen(c, x)
  {
    assert !Settled(c.slave);
  }

  lemma SlaveLocalMove(c: Container, st: Stage, x: Context, c': Container)
    requires AtStage(c, st, x) && SlaveLocal(c) == Some(c')
    ensures AtStage(c', st, x)
  {
    hide JudgedIn;
    AliveMeansWorking(c, st, x);
    assert Working(c', x);
  }

  lemma SlavePrepareMove(c: Container, st: Stage, x: Context, c': Container)
    requires AtStage(c, st, x) && Prepares(c, c')
    ensures AtStage(c', st, x)
  {
    hide JudgedIn;
    AliveMeansWorking(c, st, x);
    assert Working(c', x);
  }

  lemma SlavePassesStart(c: Container, st: Stage, x: Context, c': Container)
    requires AtStage(c, st, x) && Alive(c.slave) && c.slave.pc.SWait? && c.slave.pc.ticket < x.runGen
    requires c' == c.(slave := c.slave.(pc := SClear))
    ensures AtStage(c', st, x)
  {
    AliveMeansWorking(c, st, x);
    assert Working(c', x);
  }

  lemma SlaveErrorMove(c: Container, st: Stage, x: Context, c': Container)
    requires AtStage(c, st, x) && SlaveFails(c) == Some(c')
    ensures AtStage(c', st, x)
  {
    hide JudgedIn;
    AliveMeansWorking(c, st, x);
    assert Working(c', x);
  }

  lemma SlaveEndMove(c: Container, st: Stage, x: Context, status: Status, c': Container)
    requires AtStage(c, st, x) && SlaveEnds(c, status) == Some(c')
    ensures AtStage(c', st, x)
  {
    hide JudgedIn;
    AliveMeansWorking(c, st, x);
    assert Working(c', x);
  }

  // ------------------------------------------- arrivals at the run barrier

  lemma ContainerJoinsStart(c: Container, st: Stage, x: Context, c': Container)
    requires AtStage(c, st, x) && c.pc == CRunArrive && c' == c.(pc := CRunWait(x.runGen))
    ensures AtStage(c', st, x)
  {
    assert Working(c, x) && Working(c', x);
  }

  lemma SlaveJoinsStart(c: Container, st: Stage, x: Context, c': Container)
    requires AtStage(c, st, x) && Alive(c.slave) && c.slave.pc == SArrive
    requires c' == c.(slave := c.slave.(pc := SWait(x.runGen)))
    ensures AtStage(c', st, x) && !x.started
  {
    AliveMeansWorking(c, st, x);
    assert Working(c', x);
  }

  /** The run-start barrier opens: what each container looks like is now read
      against the next generation. */
  lemma StartOpens(c: Container, x: Context, x': Context)
    requires AtStage(c, Lent, x) && !x.started
    requires c.pc == CRunWait(x.runGen) && c.slave.Slave? && c.slave.pc == SWait(x.runGen)
    requires x' == x.(started := true, runGen := x.runGen + 1)
    ensures AtStage(c, Lent, x')
  {
  }
}
