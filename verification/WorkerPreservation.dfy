/** Every step of the worker keeps the invariant. */
module WorkerPreservation {
  import opened TaskModel
  import opened Barriers
  import opened Protocol
  import opened ProtocolInvariant
  import opened ContainerPreservation
  import opened StartPreservation

  // --------------------------------------------------- the worker's steps

  lemma WorkerArrives(c: Container)
    requires BarOk(c, false)
    ensures c.bar.Arrive(WorkerSide) ==
            if Waiting(c) then Barrier(2, {}, c.bar.gen + 1) else Barrier(2, {WorkerSide}, c.bar.gen)
  {
    if Waiting(c) {
      BothSidesRelease(c.bar, ContainerSide, WorkerSide);
    } else {
      FirstSideWaits(c.bar, WorkerSide);
    }
  }

  lemma WorkerHandsTask(c: Container, x: Context, c': Container)
    requires AtStage(c, Filled, x) && !x.started && c' == c.(bar := c.bar.Arrive(WorkerSide))
    ensures AtStage(c', Handing(c.bar.gen), x)
  {
    hide JudgedIn, AfterOpen, BeforeOpen;
    WorkerArrives(c);
    if Waiting(c) {
      assert Working(c', x);
    } else {
      assert Ready(c');
    }
  }

  lemma WorkerAsksResult(c: Container, x: Context, c': Container)
    requires AtStage(c, Lent, x) && x.started && c' == c.(bar := c.bar.Arrive(WorkerSide))
    ensures AtStage(c', Fetching(c.bar.gen), x)
  {
    hide Judged;
    WorkerArrives(c);
    if Waiting(c) {
      assert Finished(c');
    } else {
      assert Working(c', x);
    }
  }

  lemma WorkerFills(c: Container, x: Context, c': Container)
    requires AtStage(c, Away, x) && c' == c.(td := SetTask(c.td, x.task))
    ensures AtStage(c', Filled, x)
  {
    assert Ready(c');
  }

  lemma GiveBackMove(c: Container, x: Context, c': Container)
    requires AtStage(c, Taken, x) && !c.permanent && c' == c.(held := false)
    ensures AtStage(c', Taken, x)
  {
    assert Retired(c');
  }

  /** The worker moves on and changes the container of task i (`c'` is what
      becomes of it, possibly what it was). */
  lemma WorkerTouchesOne(w: Worker, i: nat, c': Container, w': Worker)
    requires Staged(w) && i < |w.containers|
    requires w'.conts == w.conts[w.containers[i] := c'] && c'.permanent == w.conts[w.containers[i]].permanent
    requires w'.containers == w.containers && w'.tasks == w.tasks
    requires w'.run.gen == w.run.gen && w'.request == w.request && Opened(w') == Opened(w)
    requires AtStage(c', StageAt(w'.pc, i), ContextOf(w, i))
    requires forall k :: 0 <= k < |w.containers| && k != i ==> StageAt(w'.pc, k) == StageAt(w.pc, k)
    ensures Staged(w')
  {
    hide AtStage;
    forall k | 0 <= k < |w'.containers|
      ensures AtStage(w'.conts[w'.containers[k]], StageAt(w'.pc, k), ContextOf(w', k))
    {
      assert ContextOf(w', k) == ContextOf(w, k);
    }
  }

  /** Nobody's waiting at the run-start barrier changes. */
  lemma WorkerTouchKeepsRun(w: Worker, h: nat, c': Container, w': Worker)
    requires RunOk(w) && h < |w.conts| && SameWaits(w.run.gen, w.conts[h], c')
    requires w'.conts == w.conts[h := c'] && w'.containers == w.containers && w'.run == w.run
    requires !w.pc.WStartWait? && !w'.pc.WStartWait? && (PastReset(w'.pc) ==> PastReset(w.pc))
    ensures RunOk(w')
  {
    forall m ensures m in w'.run.arrived <==> WaitsAtStart(w', m) {
      assert WaitsAtStart(w', m) == WaitsAtStart(w, m);
    }
  }

  lemma EndsOfUnion(a: set<string>, b: set<string>)
    ensures Ends(a + b) == Ends(a) + Ends(b - a)
  {
  }

  /** The worker moves on, changing at most one container's memory and barrier. */
  lemma WorkerTouchKeepsShape(w: Worker, h: nat, c': Container, w': Worker)
    requires Shape(w) && h < |w.conts| && SameSlot(w.conts[h], c') && w'.conts == w.conts[h := c']
    requires w' == w.(conts := w'.conts, pc := w'.pc, pipes := w'.pipes, fds := w'.fds, run := w'.run)
    requires Lengths(w') && PipesOk(w') && w'.pc.WPrepare? == w.pc.WPrepare? == false
    requires !Answered(w.pc) && !Answered(w'.pc)
    requires ReturnedIds(w'.pc) == ReturnedIds(w.pc) && ReapedContainers(w'.pc) == ReapedContainers(w.pc)
    requires Collected(w') == Collected(w)
    ensures Shape(w')
  {
    assert Kinds(w'.conts) == Kinds(w.conts);
    OneContainerKeepsIds(w.conts, w.temporary, ReturnedIds(w.pc), ReapedContainers(w.pc), h, c');
  }

  /** The worker moves between two places outside the run-start barrier. */
  lemma PcMoveKeepsRun(w: Worker, w': Worker)
    requires RunOk(w) && w'.run == w.run && w'.conts == w.conts && w'.containers == w.containers
    requires w'.pc != WStartWait(w.run.gen) && w.pc != WStartWait(w.run.gen)
    requires PastReset(w'.pc) ==> PastReset(w.pc)
    ensures RunOk(w')
  {
    forall m ensures m in w'.run.arrived <==> WaitsAtStart(w', m) {
      assert WaitsAtStart(w', m) == WaitsAtStart(w, m);
    }
  }

  lemma PcMoveKeepsShape(w: Worker, w': Worker)
    requires Shape(w) && w' == w.(pc := w'.pc, pipes := w'.pipes, fds := w'.fds, run := w'.run)
    requires Lengths(w') && PipesOk(w') && w'.pc.WPrepare? == w.pc.WPrepare? == false
    requires !Answered(w.pc) && !Answered(w'.pc)
    requires ReturnedIds(w'.pc) == ReturnedIds(w.pc) && ReapedContainers(w'.pc) == ReapedContainers(w.pc)
    requires Collected(w') == Collected(w)
    ensures Shape(w')
  {
  }

  /** The end of a loop: on to the next phase. */
  lemma PhaseEndKeepsInv(w: Worker, pc': WorkerPc)
    requires Inv(w)
    requires (w.pc == WWrite(|w.tasks|) && pc' == WReleaseArrive(0))
          || (w.pc == WReleaseArrive(|w.tasks|) && pc' == WStartArrive)
    ensures Inv(w.(pc := pc'))
  {
    hide AtStage;
    var w' := w.(pc := pc');
    assert w.tasks[..|w.tasks|] == w.tasks;
    PcMoveKeepsShape(w, w');
    SamePlaceKeepsStages(w, w');
    PcMoveKeepsRun(w, w');
  }

  /** The state after set_task of task i. */
  function Wrote(w: Worker, i: nat, c': Container): Worker
    requires i < |w.tasks| && i < |w.containers| && w.containers[i] < |w.conts|
  {
    var wanted := PipeNames(w.tasks[i]);
    w.(conts := w.conts[w.containers[i] := c'],
       pipes := w.pipes + wanted, fds := w.fds + Ends(wanted - w.pipes), pc := WWrite(i + 1))
  }

  lemma WriteKeepsShape(w: Worker, i: nat, c': Container)
    requires Shape(w) && w.pc == WWrite(i) && i < |w.tasks|
    requires SameSlot(w.conts[w.containers[i]], c')
    ensures Shape(Wrote(w, i, c'))
  {
    WantedOfPrefix(w.tasks, i);
    EndsOfUnion(w.pipes, PipeNames(w.tasks[i]));
    WorkerTouchKeepsShape(w, w.containers[i], c', Wrote(w, i, c'));
  }

  lemma WriteKeepsInv(w: Worker, i: nat, c': Container)
    requires Inv(w) && w.pc == WWrite(i) && i < |w.tasks|
    requires c' == w.conts[w.containers[i]].(td := SetTask(w.conts[w.containers[i]].td, w.tasks[i]))
    ensures Inv(Wrote(w, i, c'))
  {
    hide AtStage;
    var h, w' := w.containers[i], Wrote(w, i, c');
    WorkerFills(w.conts[h], ContextOf(w, i), c');
    WorkerTouchesOne(w, i, c', w');
    WorkerTouchKeepsRun(w, h, c', w');
    WriteKeepsShape(w, i, c');
  }

  /** The state after the worker called wait on container i's barrier. */
  function Met(w: Worker, i: nat, pc': WorkerPc): Worker
    requires i < |w.containers| && w.containers[i] < |w.conts|
  {
    var c := w.conts[w.containers[i]];
    w.(conts := w.conts[w.containers[i] := c.(bar := c.bar.Arrive(WorkerSide))], pc := pc')
  }

  lemma HandTaskKeepsInv(w: Worker, i: nat)
    requires Inv(w) && w.pc == WReleaseArrive(i) && i < |w.containers|
    ensures Inv(Met(w, i, WReleaseWait(i, w.conts[w.containers[i]].bar.gen)))
  {
    hide AtStage, Unused;
    var h := w.containers[i];
    var w' := Met(w, i, WReleaseWait(i, w.conts[h].bar.gen));
    WorkerHandsTask(w.conts[h], ContextOf(w, i), w'.conts[h]);
    WorkerTouchesOne(w, i, w'.conts[h], w');
    WorkerTouchKeepsRun(w, h, w'.conts[h], w');
    WorkerTouchKeepsShape(w, h, w'.conts[h], w');
  }

  /** A handover barrier that has been released has changed the owner. */
  lemma HandoverDone(c: Container, st: Stage, x: Context)
    requires AtStage(c, st, x)
    ensures st.Handing? && st.ticket < c.bar.gen ==> AtStage(c, Lent, x)
    ensures st.Fetching? && st.ticket < c.bar.gen ==> AtStage(c, Back, x)
    ensures st.Back? ==> AtStage(c, Taken, x)
  {
  }

  /** The worker moves on with container i, which stays as it is. */
  lemma PassOneKeepsRest(w: Worker, i: nat, pc': WorkerPc)
    requires Staged(w) && RunOk(w) && i < |w.containers| && PastReset(w.pc) && PastReset(pc')
    requires !w.pc.WStartWait? && !pc'.WStartWait? && Opened(w.(pc := pc')) == Opened(w)
    requires AtStage(w.conts[w.containers[i]], StageAt(pc', i), ContextOf(w, i))
    requires forall k :: 0 <= k < |w.containers| && k != i ==> StageAt(pc', k) == StageAt(w.pc, k)
    ensures Staged(w.(pc := pc')) && RunOk(w.(pc := pc'))
  {
    hide AtStage;
    var w' := w.(pc := pc');
    assert w.conts == w.conts[w.containers[i] := w.conts[w.containers[i]]];
    WorkerTouchesOne(w, i, w.conts[w.containers[i]], w');
    PcMoveKeepsRun(w, w');
  }

  lemma ReleaseReturnKeepsInv(w: Worker, i: nat, ticket: nat)
    requires Inv(w) && w.pc == WReleaseWait(i, ticket) && MetAt(w, i, ticket)
    ensures Inv(w.(pc := WReleaseArrive(i + 1)))
  {
    hide AtStage, IdsOk, HistoryOk, PeakEligible, Wanted, Judged;
    HandoverDone(w.conts[w.containers[i]], Handing(ticket), ContextOf(w, i));
    PassOneKeepsRest(w, i, WReleaseArrive(i + 1));
    PcMoveKeepsShape(w, w.(pc := WReleaseArrive(i + 1)));
  }

  lemma StartReturnKeepsInv(w: Worker, ticket: nat)
    requires Inv(w) && w.pc == WStartWait(ticket) && w.run.Released(ticket)
    ensures Inv(w.(pc := WClose))
  {
    hide AtStage;
    PcMoveKeepsShape(w, w.(pc := WClose));
    SamePlaceKeepsStages(w, w.(pc := WClose));
    PcMoveKeepsRun(w, w.(pc := WClose));
  }

  lemma CloseKeepsInv(w: Worker)
    requires Inv(w) && w.pc == WClose
    ensures Inv(w.(pipes := {}, fds := w.fds - Ends(w.pipes), pc := WCollectArrive(0)))
  {
    hide AtStage;
    var w' := w.(pipes := {}, fds := w.fds - Ends(w.pipes), pc := WCollectArrive(0));
    PcMoveKeepsShape(w, w');
    SamePlaceKeepsStages(w, w');
    PcMoveKeepsRun(w, w');
  }

  // ------------------------------------------------------ collecting results

  lemma AskResultKeepsInv(w: Worker, i: nat)
    requires Inv(w) && w.pc == WCollectArrive(i) && i < |w.tasks|
    ensures Inv(Met(w, i, WCollectWait(i, w.conts[w.containers[i]].bar.gen)))
  {
    hide AtStage, Unused, AssignedOk, IdsOk, HistoryOk, RepliesUpTo, PeakEligible, CountEligible, Wanted;
    var h := w.containers[i];
    var w' := Met(w, i, WCollectWait(i, w.conts[h].bar.gen));
    WorkerAsksResult(w.conts[h], ContextOf(w, i), w'.conts[h]);
    WorkerTouchesOne(w, i, w'.conts[h], w');
    WorkerTouchKeepsRun(w, h, w'.conts[h], w');
    WorkerTouchKeepsShape(w, h, w'.conts[h], w');
  }

  lemma ResultReturnKeepsInv(w: Worker, i: nat, ticket: nat)
    requires Inv(w) && w.pc == WCollectWait(i, ticket) && MetAt(w, i, ticket)
    ensures Inv(w.(pc := WPut(i)))
  {
    hide AtStage, IdsOk, HistoryOk, PeakEligible, Wanted, Judged;
    HandoverDone(w.conts[w.containers[i]], Fetching(ticket), ContextOf(w, i));
    PassOneKeepsRest(w, i, WPut(i));
    PcMoveKeepsShape(w, w.(pc := WPut(i)));
  }

  lemma ResultsAreBack(w: Worker, i: nat)
    requires Inv(w) && w.pc == WPut(i)
    ensures JudgedIn(w.conts[w.containers[i]], ContextOf(w, i))
    ensures AtStage(w.conts[w.containers[i]], Taken, ContextOf(w, i))
  {
    HandoverDone(w.conts[w.containers[i]], Back, ContextOf(w, i));
  }

  lemma PutKeepsShape(w: Worker, i: nat, td: TaskData)
    requires Shape(w) && w.pc == WPut(i)
    requires Judged(td.results, td.origin, w.tasks[i], w.request, w.containers[i])
    ensures Shape(w.(replies := w.replies[i := Reply(td.results, td.origin)], pc := WCollectArrive(i + 1)))
  {
  }

  lemma PutKeepsInv(w: Worker, i: nat, td: TaskData)
    requires Inv(w) && w.pc == WPut(i) && td == w.conts[w.containers[i]].td
    ensures Inv(w.(replies := w.replies[i := Reply(td.results, td.origin)], pc := WCollectArrive(i + 1)))
  {
    hide AtStage;
    ResultsAreBack(w, i);
    PutKeepsShape(w, i, td);
    PassOneKeepsRest(w, i, WCollectArrive(i + 1));
    var w1 := w.(pc := WCollectArrive(i + 1));
    var w' := w1.(replies := w.replies[i := Reply(td.results, td.origin)]);
    SamePlaceKeepsStages(w1, w');
    PcMoveKeepsRun(w1, w');
  }

  /** The state after the response was built. */
  function Responded(w: Worker): Worker {
    w.(responses := w.responses + [Response(w.request, w.tasks, w.containers, w.replies)], pc := WReturnId(0))
  }

  lemma RespondKeepsShape(w: Worker)
    requires Shape(w) && w.pc == WCollectArrive(|w.tasks|)
    ensures Shape(Responded(w))
  {
  }

  lemma RespondKeepsInv(w: Worker)
    requires Inv(w) && w.pc == WCollectArrive(|w.tasks|)
    ensures Inv(Responded(w))
  {
    hide AtStage;
    RespondKeepsShape(w);
    SamePlaceKeepsStages(w, Responded(w));
    PcMoveKeepsRun(w, Responded(w));
  }

  // --------------------------------------- giving ids back, end of a request

  lemma GiveBackKeepsIds(conts: seq<Container>, temporary: seq<nat>, j: nat)
    requires Handles(|conts|, temporary) && j < |temporary| && IdsOk(conts, temporary, j, j)
    requires !conts[temporary[j]].permanent
    ensures IdsOk(conts[temporary[j] := conts[temporary[j]].(held := false)], temporary, j + 1, j)
  {
  }

  lemma GiveOneBackKeepsShape(w: Worker, j: nat, w': Worker)
    requires Shape(w) && w.pc == WReturnId(j) && j < |w.temporary| && GiveBack(w, j) == Some(w')
    ensures Shape(w') && w.temporary[j] in w.containers && !w.conts[w.temporary[j]].permanent
  {
    hide IdsOk, RepliesUpTo, HistoryOk, PeakEligible, CountEligible, Wanted;
    var h := w.temporary[j];
    assert h in w.temporary;
    assert !Kinds(w.conts)[h];
    GiveBackKeepsIds(w.conts, w.temporary, j);
    assert Kinds(w'.conts) == Kinds(w.conts);
  }

  lemma GiveOneBackKeepsInv(w: Worker, j: nat, w': Worker)
    requires Inv(w) && w.pc == WReturnId(j) && j < |w.temporary| && GiveBack(w, j) == Some(w')
    ensures Inv(w')
  {
    hide AtStage, AssignedOk, IdsOk, HistoryOk, RepliesUpTo, PeakEligible, CountEligible, Wanted;
    GiveOneBackKeepsShape(w, j, w');
    var h := w.temporary[j];
    var i :| 0 <= i < |w.containers| && w.containers[i] == h;
    assert AtStage(w.conts[h], Taken, ContextOf(w, i));
    GiveBackMove(w.conts[h], ContextOf(w, i), w'.conts[h]);
    WorkerTouchesOne(w, i, w'.conts[h], w');
    WorkerTouchKeepsRun(w, h, w'.conts[h], w');
  }

  lemma RetiredIsUnused(w: Worker, h: nat)
    requires Inv(w) && w.pc == WReturnId(|w.temporary|) && h < |w.conts|
    ensures Unused(w.conts[h])
  {
    if h in w.containers {
      var i :| 0 <= i < |w.containers| && w.containers[i] == h;
      assert AtStage(w.conts[h], Taken, ContextOf(w, i));
      if !w.conts[h].permanent {
        assert !Kinds(w.conts)[h] && h in w.temporary;
        var j :| 0 <= j < |w.temporary| && w.temporary[j] == h;
      }
    }
  }

  lemma EndKeepsInv(w: Worker, w': Worker)
    requires Inv(w) && w.pc == WReturnId(|w.temporary|) && GiveBack(w, |w.temporary|) == Some(w')
    ensures Inv(w')
  {
    hide AtStage, AssignedOk, Unused, Judged;
    forall h | 0 <= h < |w'.conts| ensures Unused(w'.conts[h]) {
      RetiredIsUnused(w, h);
    }
    EndKeepsShape(w, w');
    NobodyWaitsAfterwards(w);
    forall m ensures !WaitsAtStart(w', m) && m !in w'.run.arrived {
      assert !WaitsAtStart(w, m);
    }
  }

  lemma EndKeepsShape(w: Worker, w': Worker)
    requires Shape(w) && w.pc == WReturnId(|w.temporary|) && GiveBack(w, |w.temporary|) == Some(w')
    ensures Shape(w')
  {
    forall h | 0 <= h < |Kinds(w'.conts)| ensures Kinds(w'.conts)[h] <==> h in w'.permanent {
      assert Kinds(w.conts)[h] <==> h in w.permanent;
    }
  }

  lemma TakenIsOutside(c: Container, x: Context)
    requires AtStage(c, Taken, x)
    ensures !c.pc.CRunWait? && !(c.slave.Slave? && c.slave.pc.SWait?)
  {
  }

  /** Once all results are collected nobody is inside the run-start barrier, not
      even a process that was killed there. */
  lemma NobodyWaitsAfterwards(w: Worker)
    requires Staged(w) && (w.pc.WReturnId? || w.pc.WReap?)
    ensures forall m :: !WaitsAtStart(w, m)
  {
    hide AtStage, Unused;
    forall m ensures !WaitsAtStart(w, m) {
      if !m.TheWorker? && m.h in w.containers {
        var i :| 0 <= i < |w.containers| && w.containers[i] == m.h;
        TakenIsOutside(w.conts[m.h], ContextOf(w, i));
      }
    }
  }

  lemma ReapKeepsShape(w: Worker, j: nat)
    requires Shape(w) && w.pc == WReap(j) && w.conts[w.temporary[j]].pc == CExited
    ensures Shape(w.(pc := WReturnId(j + 1)))
  {
    hide AssignedOk, RepliesUpTo, HistoryOk;
  }

  lemma ReapKeepsInv(w: Worker, j: nat)
    requires Inv(w) && w.pc == WReap(j) && w.conts[w.temporary[j]].pc == CExited
    ensures Inv(w.(pc := WReturnId(j + 1)))
  {
    hide AtStage;
    ReapKeepsShape(w, j);
    SamePlaceKeepsStages(w, w.(pc := WReturnId(j + 1)));
    PcMoveKeepsRun(w, w.(pc := WReturnId(j + 1)));
  }

  // ------------------------------------------------- the start of a request

  lemma AcceptKeepsInv(w: Worker, tasks: seq<Task>, w': Worker)
    requires Inv(w) && AcceptStep(w, tasks) == Some(w')
    ensures Inv(w')
  {
    assert tasks[..0] == [];
    forall m ensures WaitsAtStart(w', m) == WaitsAtStart(w, m) {
    }
  }

  lemma ResetKeepsInv(w: Worker, w': Worker)
    requires Inv(w) && w.pc == WReset && WorkerStep(w) == Some(w')
    ensures Inv(w')
  {
    hide AtStage, Unused, AssignedOk, IdsOk;
    NobodyInsideAtReset(w);
    SamePlaceKeepsStages(w, w');
    forall m ensures !WaitsAtStart(w', m) {
      assert !WaitsAtStart(w, m);
    }
  }

  /** No process of this worker has entered the run-start barrier without having
      left it again: wherever the worker is about to reset it, it may. */
  lemma NobodyInsideAtReset(w: Worker)
    requires Inv(w) && (w.pc == WIdle || w.pc.WPrepare? || w.pc == WReset)
    ensures forall m :: !WaitsAtStart(w, m)
    ensures forall h :: 0 <= h < |w.conts| ==>
              && !w.conts[h].pc.CRunWait?
              && !(w.conts[h].slave.Slave? && w.conts[h].slave.pc.SWait?)
  {
    hide Shape, JudgedIn, Fresh, AfterOpen, BeforeOpen;
    forall h | 0 <= h < |w.conts|
      ensures !w.conts[h].pc.CRunWait?
      ensures !(w.conts[h].slave.Slave? && w.conts[h].slave.pc.SWait?)
    {
      if h in w.containers {
        var i :| 0 <= i < |w.containers| && w.containers[i] == h;
        assert AtStage(w.conts[h], Away, ContextOf(w, i));
      } else {
        assert Unused(w.conts[h]);
      }
    }
  }

  // ------------------------------------------------- assigning containers

  lemma {:induction false} EligibleCountGrows(tasks: seq<Task>, i: nat, j: nat)
    requires i < j <= |tasks|
    ensures CountEligible(tasks[..i]) + (if Eligible(tasks[i]) then 1 else 0) <= CountEligible(tasks[..j])
  {
    assert tasks[..j][..j - 1] == tasks[..j - 1];
    if i < j - 1 {
      EligibleCountGrows(tasks, i, j - 1);
    }
  }

  /** The next permanent container is not in use yet. */
  lemma NextIsFree(kinds: seq<bool>, tasks: seq<Task>, permanent: seq<nat>, temporary: seq<nat>, containers: seq<nat>)
    requires AssignedOk(kinds, tasks, permanent, temporary, containers)
    requires CountEligible(tasks[..|containers|]) < |permanent|
    ensures permanent[CountEligible(tasks[..|containers|])] !in containers
  {
    var next := CountEligible(tasks[..|containers|]);
    if permanent[next] in containers {
      var i :| 0 <= i < |containers| && containers[i] == permanent[next];
      assert kinds[permanent[next]];
      EligibleCountGrows(tasks, i, |containers|);
      assert false;
    }
  }

  lemma ReuseKeepsAssigned(kinds: seq<bool>, tasks: seq<Task>, permanent: seq<nat>, temporary: seq<nat>,
      containers: seq<nat>)
    requires AssignedOk(kinds, tasks, permanent, temporary, containers)
    requires |containers| < |tasks| && Eligible(tasks[|containers|])
    requires CountEligible(tasks[..|containers|]) < |permanent|
    ensures AssignedOk(kinds, tasks, permanent, temporary,
                       containers + [permanent[CountEligible(tasks[..|containers|])]])
  {
    hide Eligible, CountEligible;
    NextIsFree(kinds, tasks, permanent, temporary, containers);
    var h := permanent[CountEligible(tasks[..|containers|])];
    assert h in permanent;
    assert kinds[h];
  }

  lemma NextIsReady(w: Worker, next: nat)
    requires Shape(w) && Staged(w) && w.pc == WPrepare(next) && next < |w.permanent|
    ensures w.permanent[next] < |w.conts| && w.permanent[next] !in w.containers && Ready(w.conts[w.permanent[next]])
  {
    hide AtStage, IdsOk, HistoryOk, BarOk;
    NextIsFree(Kinds(w.conts), w.tasks, w.permanent, w.temporary, w.containers);
    assert w.permanent[next] in w.permanent;
    assert Kinds(w.conts)[w.permanent[next]];
    assert Unused(w.conts[w.permanent[next]]);
  }

  lemma ReuseKeepsInv(w: Worker, next: nat)
    requires Inv(w) && w.pc == WPrepare(next) && |w.containers| < |w.tasks|
    requires Eligible(w.tasks[|w.containers|]) && next < |w.permanent|
    ensures Inv(AssignTo(w, w.permanent[next], next + 1))
  {
    hide AtStage, AssignedOk, HistoryOk, IdsOk, Unused, Judged, PeakEligible, Wanted;
    ReuseKeepsAssigned(Kinds(w.conts), w.tasks, w.permanent, w.temporary, w.containers);
    CountOfNext(w.tasks, |w.containers|);
    NextIsReady(w, next);
    AssigningKeepsRest(w, w.permanent[next], AssignTo(w, w.permanent[next], next + 1));
  }

  /** One more container comes into use. */
  lemma AssigningKeepsRest(w: Worker, h: nat, w': Worker)
    requires w.pc.WPrepare? && w'.pc.WPrepare? && |w.containers| < |w.tasks| && h < |w.conts|
    requires Handles(|w.conts|, w.containers) && StagesOk(w) && RunOk(w)
    requires h !in w.containers && Ready(w.conts[h])
    requires w'.conts == w.conts && w'.containers == w.containers + [h] && w'.tasks == w.tasks
    requires w'.run == w.run && w'.request == w.request
    ensures Staged(w') && RunOk(w')
  {
    forall i | 0 <= i < |w'.containers|
      ensures AtStage(w'.conts[w'.containers[i]], StageAt(w'.pc, i), ContextOf(w', i))
    {
      if i < |w.containers| {
        assert AtStage(w.conts[w.containers[i]], StageAt(w.pc, i), ContextOf(w, i));
      } else {
        assert Unused(w.conts[h]);
      }
    }
    forall m ensures m in w'.run.arrived <==> WaitsAtStart(w', m) {
      assert WaitsAtStart(w', m) == WaitsAtStart(w, m);
    }
  }

  lemma EndPrepareKeepsInv(w: Worker, w': Worker)
    requires Inv(w) && w.pc.WPrepare? && |w.containers| >= |w.tasks| && Assign(w) == Some(w')
    ensures Inv(w')
  {
    hide AtStage, Unused, AssignedOk, IdsOk;
    assert w.tasks[..|w.tasks|] == w.tasks;
    assert w'.served[..|w'.served| - 1] == w.served;
    SamePlaceKeepsStages(w, w');
    PcMoveKeepsRun(w, w');
  }

  // --------------------------------------------------- creating a container

  lemma CreatedKeepsIds(conts: seq<Container>, temporary: seq<nat>, c: Container, more: bool)
    requires Handles(|conts|, temporary) && IdsOk(conts, temporary, 0, 0) && c.held && (more ==> !c.permanent)
    ensures IdsOk(conts + [c], if more then temporary + [|conts|] else temporary, 0, 0)
  {
  }

  lemma HandlesOneMore(n: nat, s: seq<nat>)
    requires Handles(n, s)
    ensures Handles(n + 1, s) && Handles(n + 1, s + [n]) && n !in s
  {
  }

  lemma PlacesOfOneMore(kinds: seq<bool>, tasks: seq<Task>, permanent: seq<nat>, temporary: seq<nat>,
      containers: seq<nat>)
    requires AssignedOk(kinds, tasks, permanent, temporary, containers)
    requires |containers| < |tasks| && Eligible(tasks[|containers|])
    requires CountEligible(tasks[..|containers|]) == |permanent|
    ensures var kinds', permanent', containers' := kinds + [true], permanent + [|kinds|], containers + [|kinds|];
            forall i :: 0 <= i < |containers'| ==>
              && kinds'[containers'[i]] == Eligible(tasks[i])
              && (Eligible(tasks[i]) ==>
                    && CountEligible(tasks[..i]) < |permanent'|
                    && containers'[i] == permanent'[CountEligible(tasks[..i])])
  {
    hide Eligible, CountEligible;
  }

  lemma CreatePermanentKeepsAssigned(kinds: seq<bool>, tasks: seq<Task>, permanent: seq<nat>,
      temporary: seq<nat>, containers: seq<nat>)
    requires AssignedOk(kinds, tasks, permanent, temporary, containers)
    requires |containers| < |tasks| && Eligible(tasks[|containers|])
    requires CountEligible(tasks[..|containers|]) == |permanent|
    ensures AssignedOk(kinds + [true], tasks, permanent + [|kinds|], temporary, containers + [|kinds|])
  {
    hide Eligible, CountEligible, Handles;
    var kinds', permanent', containers' := kinds + [true], permanent + [|kinds|], containers + [|kinds|];
    HandlesOneMore(|kinds|, permanent);
    HandlesOneMore(|kinds|, temporary);
    HandlesOneMore(|kinds|, containers);
    PlacesOfOneMore(kinds, tasks, permanent, temporary, containers);
    forall h ensures h in temporary <==> h in containers' && !kinds'[h] {
      assert h in temporary <==> h in containers && !kinds[h];
    }
    forall h | 0 <= h < |kinds'| ensures kinds'[h] <==> h in permanent' {
      if h < |kinds| {
        assert kinds[h] <==> h in permanent;
      }
    }
  }

  lemma CreateTemporaryKeepsAssigned(kinds: seq<bool>, tasks: seq<Task>, permanent: seq<nat>,
      temporary: seq<nat>, containers: seq<nat>)
    requires AssignedOk(kinds, tasks, permanent, temporary, containers)
    requires |containers| < |tasks| && !Eligible(tasks[|containers|])
    ensures AssignedOk(kinds + [false], tasks, permanent, temporary + [|kinds|], containers + [|kinds|])
  {
    var kinds', temporary', containers' := kinds + [false], temporary + [|kinds|], containers + [|kinds|];
    forall h ensures h in temporary' <==> h in containers' && !kinds'[h] {
      assert h in temporary <==> h in containers && !kinds[h];
    }
    forall h | 0 <= h < |kinds'| ensures kinds'[h] <==> h in permanent {
      if h < |kinds| {
        assert kinds[h] <==> h in permanent;
      }
    }
  }

  /** `w'` is `w` with a container h, c added and given to the next task. */
  predicate CreatedFor(w: Worker, c: Container, w': Worker) {
    var h, i := |w.conts|, |w.containers|;
    && w.pc.WPrepare? && i < |w.tasks|
    && c.permanent == Eligible(w.tasks[i])
    && c.held && c.pc == CStart && Ready(c) && BarOk(c, false)
    && (c.permanent ==> w.pc.next == |w.permanent|)
    && w' == w.(conts := w.conts + [c], containers := w.containers + [h],
                permanent := if c.permanent then w.permanent + [h] else w.permanent,
                temporary := if c.permanent then w.temporary else w.temporary + [h],
                pc := WPrepare(if c.permanent then w.pc.next + 1 else w.pc.next))
  }

  lemma CreateIsCreatedFor(w: Worker, id: int, w': Worker)
    requires CreateFor(w, id) == Some(w')
    ensures CreatedFor(w, NewContainer(id, Eligible(w.tasks[|w.containers|])), w')
  {
  }

  lemma CreateKeepsAssigned(w: Worker, c: Container, w': Worker)
    requires Lengths(w) && AssignedOk(Kinds(w.conts), w.tasks, w.permanent, w.temporary, w.containers)
    requires CreatedFor(w, c, w')
    ensures AssignedOk(Kinds(w'.conts), w'.tasks, w'.permanent, w'.temporary, w'.containers)
  {
    assert Kinds(w'.conts) == Kinds(w.conts) + [c.permanent];
    if c.permanent {
      CreatePermanentKeepsAssigned(Kinds(w.conts), w.tasks, w.permanent, w.temporary, w.containers);
    } else {
      CreateTemporaryKeepsAssigned(Kinds(w.conts), w.tasks, w.permanent, w.temporary, w.containers);
    }
  }

  lemma CreateKeepsCounts(w: Worker, c: Container, w': Worker)
    requires Lengths(w) && PeakOk(w) && PipesOk(w) && CountersOk(w) && CreatedFor(w, c, w')
    ensures Lengths(w') && PeakOk(w') && PipesOk(w') && CountersOk(w')
  {
    hide Ready, BarOk;
    CountOfNext(w.tasks, |w.containers|);
  }

  lemma CreateKeepsShape(w: Worker, c: Container, w': Worker)
    requires Shape(w) && CreatedFor(w, c, w')
    ensures Shape(w')
  {
    hide HistoryOk, Lengths, PeakOk, PipesOk, CountersOk;
    CreateKeepsCounts(w, c, w');
    CreateKeepsAssigned(w, c, w');
    CreatedKeepsIds(w.conts, w.temporary, c, !c.permanent);
  }

  /** A container that exists but is not in use disturbs nobody. */
  lemma CreatedKeepsRest(w: Worker, c: Container, w1: Worker)
    requires Staged(w) && RunOk(w)
    requires w1 == w.(conts := w.conts + [c]) && Ready(c) && BarOk(c, false) && c.pc == CStart
    ensures Handles(|w1.conts|, w1.containers) && RunOk(w1)
    ensures forall i :: 0 <= i < |w1.containers| ==>
              AtStage(w1.conts[w1.containers[i]], StageAt(w1.pc, i), ContextOf(w1, i))
    ensures forall h :: 0 <= h < |w.conts| && h !in w1.containers ==> Unused(w1.conts[h])
  {
    forall i | 0 <= i < |w1.containers|
      ensures AtStage(w1.conts[w1.containers[i]], StageAt(w1.pc, i), ContextOf(w1, i))
    {
      assert ContextOf(w1, i) == ContextOf(w, i);
    }
    forall m ensures m in w1.run.arrived <==> WaitsAtStart(w1, m) {
      assert WaitsAtStart(w1, m) == WaitsAtStart(w, m);
    }
  }

  lemma StartsAway(c: Container, x: Context)
    requires Ready(c) && BarOk(c, false)
    ensures AtStage(c, Away, x)
  {
  }

  lemma CreateKeepsStages(w: Worker, c: Container, w': Worker)
    requires Staged(w) && RunOk(w)
    requires CreatedFor(w, c, w')
    ensures Staged(w')
  {
    hide AtStage;
    var w1 := w.(conts := w.conts + [c]);
    CreatedKeepsRest(w, c, w1);
    forall i | 0 <= i < |w'.containers|
      ensures AtStage(w'.conts[w'.containers[i]], StageAt(w'.pc, i), ContextOf(w', i))
    {
      if i < |w.containers| {
        assert AtStage(w1.conts[w1.containers[i]], StageAt(w1.pc, i), ContextOf(w1, i));
        assert ContextOf(w', i) == ContextOf(w1, i);
      } else {
        StartsAway(c, ContextOf(w', i));
      }
    }
  }

  lemma CreateKeepsInv(w: Worker, id: int, w': Worker)
    requires Inv(w) && CreateFor(w, id) == Some(w')
    ensures Inv(w')
  {
    hide AtStage;
    var c := NewContainer(id, Eligible(w.tasks[|w.containers|]));
    CreateIsCreatedFor(w, id, w');
    CreateKeepsShape(w, c, w');
    CreateKeepsStages(w, c, w');
    CreateKeepsRun(w, c, w');
  }

  lemma CreateKeepsRun(w: Worker, c: Container, w': Worker)
    requires RunOk(w) && CreatedFor(w, c, w') && Handles(|w.conts|, w.containers)
    ensures RunOk(w')
  {
    forall m ensures m in w'.run.arrived <==> WaitsAtStart(w', m) {
      assert WaitsAtStart(w', m) == WaitsAtStart(w, m);
    }
  }
}
