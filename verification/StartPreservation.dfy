/** What one container's step leaves of the whole state, and the run-start barrier:
    the last to join finds everybody inside, and everybody gets out. */
module StartPreservation {
  import opened TaskModel
  import opened Barriers
  import opened Protocol
  import opened ProtocolInvariant
  import opened ContainerPreservation

  // ------------------------------------------------------- the whole state

  predicate SameSlot(c: Container, c': Container) {
    c'.permanent == c.permanent && c'.held == c.held && (c.pc == CExited ==> c'.pc == CExited)
  }

  /** Neither the container nor its slave starts or stops waiting at the
      run-start barrier. */
  predicate SameWaits(gen: nat, c: Container, c': Container) {
    && (c'.pc == CRunWait(gen) <==> c.pc == CRunWait(gen))
    && (c'.slave.Slave? && c'.slave.pc == SWait(gen) <==> c.slave.Slave? && c.slave.pc == SWait(gen))
  }

  lemma OneContainerKeepsIds(conts: seq<Container>, temporary: seq<nat>, returned: nat, reaped: nat, h: nat,
      c': Container)
    requires Handles(|conts|, temporary) && IdsOk(conts, temporary, returned, reaped)
    requires h < |conts| && SameSlot(conts[h], c')
    ensures IdsOk(conts[h := c'], temporary, returned, reaped)
  {
  }

  lemma OneContainerKeepsShape(w: Worker, h: nat, c': Container)
    requires Shape(w) && h < |w.conts| && SameSlot(w.conts[h], c')
    ensures Shape(w.(conts := w.conts[h := c']))
  {
    hide IdsOk, RepliesUpTo, HistoryOk, PeakEligible, CountEligible, Wanted;
    assert Kinds(w.conts[h := c']) == Kinds(w.conts);
    OneContainerKeepsIds(w.conts, w.temporary, ReturnedIds(w.pc), ReapedContainers(w.pc), h, c');
  }

  lemma OneContainerKeepsStages(w: Worker, h: nat, c': Container)
    requires Staged(w)
    requires h < |w.conts| && SameSlot(w.conts[h], c')
    requires h !in w.containers ==> Unused(c')
    requires forall i :: 0 <= i < |w.containers| && w.containers[i] == h ==>
               AtStage(c', StageAt(w.pc, i), ContextOf(w, i))
    ensures var w' := w.(conts := w.conts[h := c']);
            Handles(|w'.conts|, w'.containers) && StagesOk(w')
  {
    hide AtStage;
    var w' := w.(conts := w.conts[h := c']);
    forall i | 0 <= i < |w'.containers|
      ensures AtStage(w'.conts[w'.containers[i]], StageAt(w'.pc, i), ContextOf(w', i))
    {
      assert ContextOf(w', i) == ContextOf(w, i);
    }
  }

  lemma OneContainerKeepsRun(w: Worker, h: nat, c': Container)
    requires RunOk(w) && h < |w.conts| && SameWaits(w.run.gen, w.conts[h], c')
    ensures RunOk(w.(conts := w.conts[h := c']))
  {
    var w' := w.(conts := w.conts[h := c']);
    forall m ensures m in w'.run.arrived <==> WaitsAtStart(w', m) {
      assert WaitsAtStart(w', m) == WaitsAtStart(w, m);
    }
  }

  /** The invariant of a state in which only container h changed. */
  lemma OneContainerChanges(w: Worker, h: nat, c': Container)
    requires Inv(w) && h < |w.conts| && SameSlot(w.conts[h], c') && SameWaits(w.run.gen, w.conts[h], c')
    requires h !in w.containers ==> Unused(c')
    requires forall i :: 0 <= i < |w.containers| && w.containers[i] == h ==>
               AtStage(c', StageAt(w.pc, i), ContextOf(w, i))
    ensures Inv(w.(conts := w.conts[h := c']))
  {
    hide AtStage;
    OneContainerKeepsShape(w, h, c');
    OneContainerKeepsStages(w, h, c');
    OneContainerKeepsRun(w, h, c');
  }

  lemma LocalMoveAtStage(c: Container, st: Stage, x: Context, c': Container)
    requires AtStage(c, st, x) && ContainerLocal(c) == Some(c') && (st.Handing? ==> !x.started)
    ensures AtStage(c', st, x)
  {
    if c.pc == CTaskArrive {
      ContainerTakesTask(c, st, x, c');
    } else if c.pc == CResultArrive {
      ContainerHandsBack(c, st, x, c');
    } else {
      ContainerMoves(c, st, x, c');
    }
  }

  lemma LocalMoveKeepsSlot(c: Container, gen: nat, c': Container)
    requires ContainerLocal(c) == Some(c')
    ensures SameSlot(c, c') && SameWaits(gen, c, c')
  {
  }

  lemma LocalMoveKeepsInv(w: Worker, h: nat, c': Container)
    requires Inv(w) && h < |w.conts| && ContainerLocal(w.conts[h]) == Some(c')
    ensures Inv(w.(conts := w.conts[h := c']))
  {
    hide Shape, RunOk, AtStage;
    var c := w.conts[h];
    if h !in w.containers {
      UnusedMoves(c, c');
    }
    forall i | 0 <= i < |w.containers| && w.containers[i] == h
      ensures AtStage(c', StageAt(w.pc, i), ContextOf(w, i))
    {
      LocalMoveAtStage(c, StageAt(w.pc, i), ContextOf(w, i), c');
    }
    LocalMoveKeepsSlot(c, w.run.gen, c');
    OneContainerChanges(w, h, c');
  }

  /** A container at its work is one the request uses. */
  lemma WorkIsAssigned(w: Worker, h: nat)
    requires Staged(w) && h < |w.conts|
    requires Alive(w.conts[h].slave) || !(Ready(w.conts[h]) || Retired(w.conts[h]))
    ensures h in w.containers
  {
    assert h !in w.containers ==> Unused(w.conts[h]);
  }

  /** As long as the run-start barrier is closed and some container has its
      task, both ends of every pipe of the request are open. */
  lemma PipesAreOpen(w: Worker, i: nat)
    requires PipesOk(w) && i < |w.containers| <= |w.tasks|
    requires !Opened(w) && (StageAt(w.pc, i).Handing? || StageAt(w.pc, i).Lent?)
    ensures w.fds == Ends(Wanted(w.tasks))
  {
  }

  lemma AboutToFork(c: Container, st: Stage, x: Context)
    requires AtStage(c, st, x) && c.pc == CFork
    ensures Working(c, x) && Settled(c.slave) && !x.started && (st.Handing? || st.Lent? || st.Fetching?)
  {
  }

  lemma ForkAtStage(w: Worker, h: nat, i: nat)
    requires PipesOk(w) && Staged(w) && h < |w.conts|
    requires i < |w.containers| && w.containers[i] == h && w.conts[h].pc == CFork
    ensures AtStage(Fork(w, w.conts[h]), StageAt(w.pc, i), ContextOf(w, i))
  {
    hide AtStage, Working, Unused;
    AboutToFork(w.conts[h], StageAt(w.pc, i), ContextOf(w, i));
    PipesAreOpen(w, i);
    ForkMove(w.conts[h], StageAt(w.pc, i), ContextOf(w, i), w);
  }

  lemma ForkKeepsSlot(w: Worker, c: Container)
    requires c.pc == CFork && Settled(c.slave)
    ensures SameSlot(c, Fork(w, c)) && SameWaits(w.run.gen, c, Fork(w, c))
  {
  }

  lemma ForkIsAssigned(w: Worker, h: nat) returns (i: nat)
    requires Staged(w) && h < |w.conts| && w.conts[h].pc == CFork
    ensures i < |w.containers| && w.containers[i] == h && Settled(w.conts[h].slave)
  {
    hide AtStage, Working;
    WorkIsAssigned(w, h);
    i :| 0 <= i < |w.containers| && w.containers[i] == h;
    AboutToFork(w.conts[h], StageAt(w.pc, i), ContextOf(w, i));
  }

  lemma ForkKeepsInv(w: Worker, h: nat)
    requires Inv(w) && h < |w.conts| && w.conts[h].pc == CFork
    ensures Inv(w.(conts := w.conts[h := Fork(w, w.conts[h])]))
  {
    hide RunOk, AtStage, AssignedOk, IdsOk, RepliesUpTo, HistoryOk, PeakOk;
    var i := ForkIsAssigned(w, h);
    ForkKeepsSlot(w, w.conts[h]);
    forall k | 0 <= k < |w.containers| && w.containers[k] == h
      ensures AtStage(Fork(w, w.conts[h]), StageAt(w.pc, k), ContextOf(w, k))
    {
      ForkAtStage(w, h, k);
    }
    OneContainerChanges(w, h, Fork(w, w.conts[h]));
  }

  lemma PassStartKeepsInv(w: Worker, h: nat)
    requires Inv(w) && h < |w.conts| && w.conts[h].pc.CRunWait? && w.run.Released(w.conts[h].pc.ticket)
    ensures Inv(w.(conts := w.conts[h := w.conts[h].(pc := CSupervise)]))
  {
    hide Shape, RunOk, AtStage;
    var c := w.conts[h];
    WorkIsAssigned(w, h);
    forall i | 0 <= i < |w.containers| && w.containers[i] == h
      ensures AtStage(c.(pc := CSupervise), StageAt(w.pc, i), ContextOf(w, i))
    {
      PassStart(c, StageAt(w.pc, i), ContextOf(w, i), c.(pc := CSupervise));
    }
    OneContainerChanges(w, h, c.(pc := CSupervise));
  }

  lemma CheckKeepsInv(w: Worker, h: nat, c': Container)
    requires Inv(w) && h < |w.conts| && w.conts[h].pc == CCheck && Check(w.conts[h]) == Some(c')
    ensures Inv(w.(conts := w.conts[h := c']))
  {
    hide Shape, RunOk, AtStage;
    WorkIsAssigned(w, h);
    forall i | 0 <= i < |w.containers| && w.containers[i] == h
      ensures AtStage(c', StageAt(w.pc, i), ContextOf(w, i))
    {
      CheckMove(w.conts[h], StageAt(w.pc, i), ContextOf(w, i), c');
    }
    OneContainerChanges(w, h, c');
  }

  lemma KillKeepsInv(w: Worker, h: nat, over: Overrun, c': Container)
    requires Inv(w) && h < |w.conts| && Kill(w.conts[h], over) == Some(c')
    ensures Inv(w.(conts := w.conts[h := c']))
  {
    hide Shape, RunOk, AtStage;
    WorkIsAssigned(w, h);
    forall i | 0 <= i < |w.containers| && w.containers[i] == h
      ensures AtStage(c', StageAt(w.pc, i), ContextOf(w, i))
    {
      KillMove(w.conts[h], StageAt(w.pc, i), ContextOf(w, i), over, c');
    }
    OneContainerChanges(w, h, c');
  }

  lemma PublishKeepsInv(w: Worker, h: nat, usage: Observation, c': Container)
    requires Inv(w) && h < |w.conts| && Publish(w.conts[h], h, usage) == Some(c')
    ensures Inv(w.(conts := w.conts[h := c']))
  {
    hide Shape, RunOk, AtStage;
    WorkIsAssigned(w, h);
    forall i | 0 <= i < |w.containers| && w.containers[i] == h
      ensures AtStage(c', StageAt(w.pc, i), ContextOf(w, i))
    {
      PublishMove(w.conts[h], StageAt(w.pc, i), ContextOf(w, i), usage, c');
    }
    OneContainerChanges(w, h, c');
  }

  lemma SlaveMoveAtStage(c: Container, st: Stage, x: Context, c': Container)
    requires AtStage(c, st, x) && (SlaveLocal(c) == Some(c') || Prepares(c, c') || SlaveFails(c) == Some(c'))
    ensures AtStage(c', st, x)
  {
    hide AtStage;
    if SlaveLocal(c) == Some(c') {
      SlaveLocalMove(c, st, x, c');
    } else if Prepares(c, c') {
      SlavePrepareMove(c, st, x, c');
    } else {
      SlaveErrorMove(c, st, x, c');
    }
  }

  lemma PrepareKeepsSlot(c: Container, gen: nat, c': Container)
    requires Prepares(c, c')
    ensures SameSlot(c, c') && SameWaits(gen, c, c') && Alive(c.slave)
  {
  }

  lemma SlaveMoveKeepsSlot(c: Container, gen: nat, c': Container)
    requires SlaveLocal(c) == Some(c') || Prepares(c, c') || SlaveFails(c) == Some(c')
    ensures SameSlot(c, c') && SameWaits(gen, c, c') && Alive(c.slave)
  {
    if Prepares(c, c') {
      hide Prepares;
      PrepareKeepsSlot(c, gen, c');
    }
  }

  lemma SlaveKeepsInv(w: Worker, h: nat, c': Container)
    requires Inv(w) && h < |w.conts|
    requires SlaveLocal(w.conts[h]) == Some(c') || Prepares(w.conts[h], c') || SlaveFails(w.conts[h]) == Some(c')
    ensures Inv(w.(conts := w.conts[h := c']))
  {
    hide Shape, RunOk, AtStage;
    SlaveMoveKeepsSlot(w.conts[h], w.run.gen, c');
    WorkIsAssigned(w, h);
    forall i | 0 <= i < |w.containers| && w.containers[i] == h
      ensures AtStage(c', StageAt(w.pc, i), ContextOf(w, i))
    {
      SlaveMoveAtStage(w.conts[h], StageAt(w.pc, i), ContextOf(w, i), c');
    }
    OneContainerChanges(w, h, c');
  }

  lemma SlaveEndKeepsInv(w: Worker, h: nat, status: Status, c': Container)
    requires Inv(w) && h < |w.conts| && SlaveEnds(w.conts[h], status) == Some(c')
    ensures Inv(w.(conts := w.conts[h := c']))
  {
    hide Shape, RunOk, AtStage;
    WorkIsAssigned(w, h);
    forall i | 0 <= i < |w.containers| && w.containers[i] == h
      ensures AtStage(c', StageAt(w.pc, i), ContextOf(w, i))
    {
      SlaveEndMove(w.conts[h], StageAt(w.pc, i), ContextOf(w, i), status, c');
    }
    OneContainerChanges(w, h, c');
  }

  lemma SlavePassKeepsInv(w: Worker, h: nat, c': Container)
    requires Inv(w) && h < |w.conts| && Alive(w.conts[h].slave)
    requires w.conts[h].slave.pc.SWait? && w.run.Released(w.conts[h].slave.pc.ticket)
    requires c' == w.conts[h].(slave := w.conts[h].slave.(pc := SClear))
    ensures Inv(w.(conts := w.conts[h := c']))
  {
    hide Shape, RunOk, AtStage;
    WorkIsAssigned(w, h);
    forall i | 0 <= i < |w.containers| && w.containers[i] == h
      ensures AtStage(c', StageAt(w.pc, i), ContextOf(w, i))
    {
      SlavePassesStart(w.conts[h], StageAt(w.pc, i), ContextOf(w, i), c');
    }
    OneContainerChanges(w, h, c');
  }

  /** The worker moves without changing its distance to any container. */
  lemma SamePlaceKeepsStages(w: Worker, w': Worker)
    requires Staged(w)
    requires w'.conts == w.conts && w'.containers == w.containers && w'.tasks == w.tasks
    requires w'.run.gen == w.run.gen && w'.request == w.request && Opened(w') == Opened(w)
    requires forall i :: 0 <= i < |w.containers| ==> StageAt(w'.pc, i) == StageAt(w.pc, i)
    ensures StagesOk(w')
  {
    hide AtStage;
    forall i | 0 <= i < |w'.containers|
      ensures AtStage(w'.conts[w'.containers[i]], StageAt(w'.pc, i), ContextOf(w', i))
    {
      assert ContextOf(w', i) == ContextOf(w, i);
    }
  }

  // ------------------------------------------------- the run-start barrier

  /** Worker, containers and slaves of a request: what the barrier waits for. */
  function Members(containers: seq<nat>): set<Member> {
    if containers == [] then {TheWorker}
    else
      var h := containers[|containers| - 1];
      Members(containers[..|containers| - 1]) + {ContainerOf(h), SlaveOf(h)}
  }

  lemma {:induction false} MembersAre(containers: seq<nat>, m: Member)
    ensures m in Members(containers) <==>
            match m case TheWorker => true case ContainerOf(h) => h in containers case SlaveOf(h) => h in containers
  {
    if containers != [] {
      var front := containers[..|containers| - 1];
      MembersAre(front, m);
      assert containers == front + [containers[|containers| - 1]];
    }
  }

  lemma {:induction false} MembersAreCounted(containers: seq<nat>)
    requires Distinct(containers)
    ensures |Members(containers)| == 2 * |containers| + 1
  {
    if containers != [] {
      var front, h := containers[..|containers| - 1], containers[|containers| - 1];
      MembersAreCounted(front);
      MembersAre(front, ContainerOf(h));
      MembersAre(front, SlaveOf(h));
      assert h !in front;
      assert Members(containers) == Members(front) + {ContainerOf(h)} + {SlaveOf(h)};
    }
  }

  lemma FullSubset<T>(a: set<T>, b: set<T>)
    requires a <= b && |a| == |b|
    ensures a == b
  {
    assert |b - a| == |b| - |a|;
    assert b == a + (b - a);
  }

  ghost predicate Rest(w: Worker) {
    Shape(w) && Staged(w)
  }

  /** With m inside, the barrier's membership is as it should be but for m. */
  ghost predicate OneMore(w: Worker, m: Member) {
    m !in w.run.arrived && forall m' :: WaitsAtStart(w, m') <==> m' in w.run.arrived + {m}
  }

  /** m stands inside the barrier but the barrier does not know it yet. */
  ghost predicate Joining(w: Worker, m: Member) {
    && Rest(w) && PastReset(w.pc) && !Opened(w)
    && |w.run.arrived| < w.run.count == 2 * |w.containers| + 1
    && OneMore(w, m)
  }

  /** The last to join finds everybody else inside. */
  lemma LastFindsAll(w: Worker, m: Member)
    requires Joining(w, m) && |w.run.arrived + {m}| == w.run.count
    ensures w.pc == WStartWait(w.run.gen)
    ensures forall i :: 0 <= i < |w.containers| ==>
              && w.conts[w.containers[i]].pc == CRunWait(w.run.gen)
              && w.conts[w.containers[i]].slave.Slave? && w.conts[w.containers[i]].slave.pc == SWait(w.run.gen)
  {
    var all := w.run.arrived + {m};
    forall m' | m' in all ensures m' in Members(w.containers) {
      assert WaitsAtStart(w, m');
      MembersAre(w.containers, m');
    }
    MembersAreCounted(w.containers);
    FullSubset(all, Members(w.containers));
    MembersAre(w.containers, TheWorker);
    assert WaitsAtStart(w, TheWorker);
    forall i | 0 <= i < |w.containers|
      ensures w.conts[w.containers[i]].pc == CRunWait(w.run.gen)
      ensures w.conts[w.containers[i]].slave.Slave? && w.conts[w.containers[i]].slave.pc == SWait(w.run.gen)
    {
      MembersAre(w.containers, ContainerOf(w.containers[i]));
      MembersAre(w.containers, SlaveOf(w.containers[i]));
      assert WaitsAtStart(w, ContainerOf(w.containers[i]));
      assert WaitsAtStart(w, SlaveOf(w.containers[i]));
    }
  }

  lemma OpeningKeepsStages(w: Worker, w': Worker)
    requires Rest(w) && !Opened(w) && w.pc == WStartWait(w.run.gen)
    requires forall i :: 0 <= i < |w.containers| ==>
              && w.conts[w.containers[i]].pc == CRunWait(w.run.gen)
              && w.conts[w.containers[i]].slave.Slave? && w.conts[w.containers[i]].slave.pc == SWait(w.run.gen)
    requires w' == w.(run := Barrier(w.run.count, {}, w.run.gen + 1))
    ensures Staged(w')
  {
    hide AtStage, Shape;
    forall i | 0 <= i < |w'.containers|
      ensures AtStage(w'.conts[w'.containers[i]], StageAt(w'.pc, i), ContextOf(w', i))
    {
      assert AtStage(w.conts[w.containers[i]], StageAt(w.pc, i), ContextOf(w, i));
      StartOpens(w.conts[w.containers[i]], ContextOf(w, i), ContextOf(w', i));
    }
  }

  lemma NobodyWaitsAfterOpening(w: Worker, w': Worker)
    requires w.pc == WStartWait(w.run.gen) && Handles(|w.conts|, w.containers)
    requires forall i :: 0 <= i < |w.containers| ==>
              && w.conts[w.containers[i]].pc == CRunWait(w.run.gen)
              && w.conts[w.containers[i]].slave.Slave? && w.conts[w.containers[i]].slave.pc == SWait(w.run.gen)
    requires w' == w.(run := Barrier(w.run.count, {}, w.run.gen + 1))
    requires w.run.count == 2 * |w.containers| + 1
    ensures RunOk(w')
  {
    forall m ensures !WaitsAtStart(w', m) {
      if m.ContainerOf? && m.h in w.containers {
        assert w.conts[m.h].pc == CRunWait(w.run.gen);
      } else if m.SlaveOf? && m.h in w.containers {
        assert w.conts[m.h].slave.pc == SWait(w.run.gen);
      }
    }
  }

  lemma WaitingKeepsStages(w: Worker, w': Worker)
    requires Rest(w) && w' == w.(run := w'.run) && w'.run.gen == w.run.gen
    ensures Rest(w')
  {
    hide AtStage;
    forall i | 0 <= i < |w'.containers|
      ensures AtStage(w'.conts[w'.containers[i]], StageAt(w'.pc, i), ContextOf(w', i))
    {
      assert ContextOf(w', i) == ContextOf(w, i);
    }
  }

  /** Where the run-start barrier stands is of no concern to the rest. */
  lemma JoinKeepsShape(w: Worker, w': Worker)
    requires Shape(w) && w.run.gen <= w'.run.gen <= w.run.gen + 1 && w' == w.(run := w'.run)
    requires !Opened(w)
    ensures Shape(w')
  {
    hide AssignedOk, IdsOk, RepliesUpTo, HistoryOk;
  }

  lemma JoinKeepsInv(w: Worker, m: Member)
    requires Joining(w, m)
    ensures Inv(w.(run := w.run.Arrive(m)))
  {
    hide AtStage, Unused, Shape;
    var w' := w.(run := w.run.Arrive(m));
    JoinKeepsShape(w, w');
    if |w.run.arrived + {m}| == w.run.count {
      LastFindsAll(w, m);
      OpeningKeepsStages(w, w');
      NobodyWaitsAfterOpening(w, w');
    } else {
      assert |w.run.arrived + {m}| == |w.run.arrived| + 1;
      WaitingKeepsStages(w, w');
      forall m' ensures WaitsAtStart(w', m') <==> m' in w'.run.arrived {
        assert WaitsAtStart(w', m') == WaitsAtStart(w, m');
      }
    }
  }

  lemma AliveIsAssigned(w: Worker, h: nat) returns (i: nat)
    requires Staged(w) && h < |w.conts| && (Alive(w.conts[h].slave) || w.conts[h].pc == CRunArrive)
    ensures i < |w.containers| && w.containers[i] == h && Working(w.conts[h], ContextOf(w, i))
    ensures StageAt(w.pc, i).Handing? || StageAt(w.pc, i).Lent? || StageAt(w.pc, i).Fetching?
  {
    hide Judged, Fresh, AfterOpen, BeforeOpen;
    WorkIsAssigned(w, h);
    i :| 0 <= i < |w.containers| && w.containers[i] == h;
    assert AtStage(w.conts[h], StageAt(w.pc, i), ContextOf(w, i));
    if Alive(w.conts[h].slave) {
      AliveMeansWorking(w.conts[h], StageAt(w.pc, i), ContextOf(w, i));
    }
  }

  lemma ContainerJoins(w: Worker, h: nat, i: nat, c': Container)
    requires Staged(w) && RunOk(w) && i < |w.containers| && w.containers[i] == h && w.conts[h].pc == CRunArrive
    requires Working(w.conts[h], ContextOf(w, i))
    requires c' == w.conts[h].(pc := CRunWait(w.run.gen))
    ensures Staged(w.(conts := w.conts[h := c'])) && OneMore(w.(conts := w.conts[h := c']), ContainerOf(h))
  {
    hide AtStage, Unused;
    var w1, m := w.(conts := w.conts[h := c']), ContainerOf(h);
    forall k | 0 <= k < |w.containers| && w.containers[k] == h
      ensures AtStage(c', StageAt(w.pc, k), ContextOf(w, k))
    {
      ContainerJoinsStart(w.conts[h], StageAt(w.pc, k), ContextOf(w, k), c');
    }
    OneContainerKeepsStages(w, h, c');
    assert !WaitsAtStart(w, m);
    forall m' ensures WaitsAtStart(w1, m') <==> m' in w1.run.arrived + {m} {
      assert m' != m ==> WaitsAtStart(w1, m') == WaitsAtStart(w, m');
    }
  }

  lemma ContainerArrivalKeepsInv(w: Worker, h: nat)
    requires Inv(w) && h < |w.conts| && w.conts[h].pc == CRunArrive
    ensures Inv(w.(conts := w.conts[h := w.conts[h].(pc := CRunWait(w.run.gen))], run := w.run.Arrive(ContainerOf(h))))
  {
    hide AtStage;
    var i := AliveIsAssigned(w, h);
    var c' := w.conts[h].(pc := CRunWait(w.run.gen));
    OneContainerKeepsShape(w, h, c');
    ContainerJoins(w, h, i, c');
    JoinKeepsInv(w.(conts := w.conts[h := c']), ContainerOf(h));
  }

  lemma SlaveJoins(w: Worker, h: nat, i: nat, c': Container)
    requires Staged(w) && RunOk(w) && i < |w.containers| && w.containers[i] == h
    requires Alive(w.conts[h].slave) && w.conts[h].slave.pc == SArrive
    requires c' == w.conts[h].(slave := w.conts[h].slave.(pc := SWait(w.run.gen)))
    ensures Staged(w.(conts := w.conts[h := c'])) && OneMore(w.(conts := w.conts[h := c']), SlaveOf(h))
    ensures !Opened(w)
  {
    hide AtStage, Unused;
    var w1, m := w.(conts := w.conts[h := c']), SlaveOf(h);
    forall k | 0 <= k < |w.containers| && w.containers[k] == h
      ensures AtStage(c', StageAt(w.pc, k), ContextOf(w, k)) && !ContextOf(w, k).started
    {
      SlaveJoinsStart(w.conts[h], StageAt(w.pc, k), ContextOf(w, k), c');
    }
    assert !ContextOf(w, i).started;
    OneContainerKeepsStages(w, h, c');
    assert !WaitsAtStart(w, m);
    forall m' ensures WaitsAtStart(w1, m') <==> m' in w1.run.arrived + {m} {
      assert m' != m ==> WaitsAtStart(w1, m') == WaitsAtStart(w, m');
    }
  }

  lemma SlaveArrivalKeepsInv(w: Worker, h: nat, c': Container)
    requires Inv(w) && h < |w.conts| && Alive(w.conts[h].slave) && w.conts[h].slave.pc == SArrive
    requires c' == w.conts[h].(slave := w.conts[h].slave.(pc := SWait(w.run.gen)))
    ensures Inv(w.(conts := w.conts[h := c'], run := w.run.Arrive(SlaveOf(h))))
  {
    hide AtStage;
    var i := AliveIsAssigned(w, h);
    OneContainerKeepsShape(w, h, c');
    SlaveJoins(w, h, i, c');
    JoinKeepsInv(w.(conts := w.conts[h := c']), SlaveOf(h));
  }

  lemma WorkerJoins(w: Worker)
    requires Inv(w) && w.pc == WStartArrive
    ensures Joining(w.(pc := WStartWait(w.run.gen)), TheWorker)
  {
    hide AtStage, AssignedOk, IdsOk, PeakEligible, RepliesUpTo, HistoryOk;
    var w1 := w.(pc := WStartWait(w.run.gen));
    assert !WaitsAtStart(w, TheWorker);
    SamePlaceKeepsStages(w, w1);
    forall m' ensures WaitsAtStart(w1, m') <==> m' in w1.run.arrived + {TheWorker} {
      assert m' != TheWorker ==> WaitsAtStart(w1, m') == WaitsAtStart(w, m');
    }
  }

  lemma WorkerArrivalKeepsInv(w: Worker)
    requires Inv(w) && w.pc == WStartArrive
    ensures Inv(w.(pc := WStartWait(w.run.gen), run := w.run.Arrive(TheWorker)))
  {
    hide AtStage;
    WorkerJoins(w);
    JoinKeepsInv(w.(pc := WStartWait(w.run.gen)), TheWorker);
  }
}
