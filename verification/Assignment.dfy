/** prepare_containers and the end of collect_results in src/worker.cpp: the vectors
    of container objects that a worker keeps from request to request. */
module Assignment {
  import opened TaskModel
  import opened Protocol
  import opened ProtocolInvariant
  import opened ProtocolPreservation

  /** A container as its worker sees it. */
  class Box {
    const id: int
    const permanent: bool

    constructor (id: int, permanent: bool)
      ensures this.id == id && this.permanent == permanent
    {
      this.id, this.permanent := id, permanent;
    }
  }

  /** How many containers a request makes a worker create that has p permanent ones. */
  function Needed(tasks: seq<Task>, p: nat): nat {
    var eligible := CountEligible(tasks);
    CountBound(tasks);
    |tasks| - eligible + (if eligible > p then eligible - p else 0)
  }

  lemma {:induction false} CountBound(tasks: seq<Task>)
    ensures CountEligible(tasks) <= |tasks|
  {
    if tasks != [] {
      CountBound(tasks[..|tasks| - 1]);
    }
  }

  ghost predicate Are(boxes: seq<Box>, handles: seq<nat>, created: seq<Box>) {
    |boxes| == |handles| && forall i :: 0 <= i < |handles| ==> handles[i] < |created| && boxes[i] == created[handles[i]]
  }

  /** The containers of the step system are these boxes. */
  ghost predicate SameBoxes(conts: seq<Container>, created: seq<Box>) {
    && |conts| == |created|
    && forall h :: 0 <= h < |created| ==> conts[h].id == created[h].id && conts[h].permanent == created[h].permanent
  }

  /** Every task has the container it calls for, no two the same: those without IPC
      and with the standard binds the permanent containers, in order. */
  ghost predicate Placed(tasks: seq<Task>, permanent: seq<Box>, temporary: seq<Box>, containers: seq<Box>) {
    && |containers| <= |tasks| && Distinct(containers) && Distinct(permanent)
    && (forall i :: 0 <= i < |containers| ==>
          (containers[i].permanent <==> !tasks[i].needIpc && tasks[i].useStandardBinds))
    && (forall i :: 0 <= i < |containers| && !tasks[i].needIpc && tasks[i].useStandardBinds ==>
          && |PlainPlaces(tasks[..i])| < |permanent|
          && containers[i] == permanent[|PlainPlaces(tasks[..i])|])
    && (forall b :: b in temporary ==> b in containers && !b.permanent)
    && (forall b :: b in containers && !b.permanent ==> b in temporary)
  }

  lemma HandlesMeanDistinct(boxes: seq<Box>, handles: seq<nat>, created: seq<Box>)
    requires Distinct(created) && Are(boxes, handles, created) && Handles(|created|, handles)
    ensures Distinct(boxes)
    ensures forall h :: 0 <= h < |created| ==> (created[h] in boxes <==> h in handles)
    ensures forall b :: b in boxes ==> b in created
  {
  }

  lemma AssignedMeansPlaced(w: Worker, created: seq<Box>, permanent: seq<Box>, temporary: seq<Box>,
      containers: seq<Box>)
    requires Distinct(created) && SameBoxes(w.conts, created)
    requires Are(permanent, w.permanent, created) && Are(temporary, w.temporary, created)
             && Are(containers, w.containers, created)
    requires AssignedOk(Kinds(w.conts), w.tasks, w.permanent, w.temporary, w.containers)
    ensures Placed(w.tasks, permanent, temporary, containers)
  {
    hide CountEligible, PlainPlaces;
    HandlesMeanDistinct(permanent, w.permanent, created);
    HandlesMeanDistinct(temporary, w.temporary, created);
    HandlesMeanDistinct(containers, w.containers, created);
    forall b ensures b in temporary <==> b in containers && !b.permanent {
      if b in created {
        var h :| 0 <= h < |created| && created[h] == b;
        assert Kinds(w.conts)[h] == b.permanent;
      }
    }
    forall i | 0 <= i < |containers|
      ensures containers[i].permanent == Eligible(w.tasks[i])
      ensures CountEligible(w.tasks[..i]) == |PlainPlaces(w.tasks[..i])|
    {
      assert Kinds(w.conts)[w.containers[i]] == containers[i].permanent;
      CountIsCardinality(w.tasks[..i]);
    }
  }

  lemma NothingNeeded(w: Worker, p: nat)
    ensures CountEligible([]) == 0 && Needed([], p) == 0 && Run(w, []) == Some(w)
  {
  }

  lemma RunOneMore(w: Worker, before: seq<Action>, early: Worker, a: Action, late: Worker)
    requires Run(w, before) == Some(early) && Step(early, a) == Some(late)
    ensures Run(w, before + [a]) == Some(late)
  {
    hide Step;
    assert (before + [a])[..|before|] == before;
  }

  lemma NeededGrows(tasks: seq<Task>, p: nat, i: nat)
    requires i < |tasks|
    ensures Needed(tasks[..i + 1], p) ==
            Needed(tasks[..i], p) + (if Eligible(tasks[i]) && CountEligible(tasks[..i]) < p then 0 else 1)
    ensures Needed(tasks[..i + 1], p) <= Needed(tasks, p)
    decreases |tasks| - i
  {
    CountOfNext(tasks, i);
    if i + 1 < |tasks| {
      NeededGrows(tasks, p, i + 1);
    } else {
      assert tasks[..i + 1] == tasks;
    }
  }

  lemma PreparedAll(w: Worker, permanent: seq<Box>, temporary: seq<Box>, containers: seq<Box>, created: seq<Box>)
    requires Inv(w) && !w.failed && w.pc.WPrepare? && |containers| == |w.tasks|
    requires Distinct(created) && SameBoxes(w.conts, created)
    requires Are(permanent, w.permanent, created) && Are(temporary, w.temporary, created)
             && Are(containers, w.containers, created)
    ensures Step(w, WorkerMove) == Some(w.(pc := WReset, served := w.served + [w.tasks]))
    ensures Placed(w.tasks, permanent, temporary, containers)
    ensures forall i :: 0 <= i < |containers| ==>
              (containers[i].permanent <==> !w.tasks[i].needIpc && w.tasks[i].useStandardBinds)
  {
    hide Staged, RunOk, AssignedOk, PlainPlaces;
    AssignedMeansPlaced(w, created, permanent, temporary, containers);
  }

  class WorkerContainers {
    var permanent: seq<Box>
    var temporary: seq<Box>
    var containers: seq<Box>
    ghost var created: seq<Box>

    /** The worker of the step system whose vectors are these. */
    ghost predicate Matches(w: Worker)
      reads this
    {
      && Distinct(created) && SameBoxes(w.conts, created)
      && Are(permanent, w.permanent, created) && Are(temporary, w.temporary, created)
      && Are(containers, w.containers, created)
    }

    constructor ()
      ensures permanent == temporary == containers == created == [] && Matches(INITIAL)
    {
      permanent, temporary, containers, created := [], [], [], [];
    }

    /** A permanent container that is there already. */
    method Reuse(next: nat, ghost w: Worker)
      requires Matches(w) && !w.failed && w.pc == WPrepare(next) && next < |permanent|
      requires |containers| < |w.tasks| && Eligible(w.tasks[|containers|])
      modifies this`containers
      ensures containers == old(containers) + [permanent[next]]
      ensures var w' := Step(w, WorkerMove);
              && w'.Some? && Matches(w'.value) && w'.value.pc == WPrepare(next + 1)
              && w'.value.tasks == w.tasks && !w'.value.failed
    {
      containers := containers + [permanent[next]];
    }

    /** A container made for the task. */
    method Create(id: int, eligible: bool, next: nat, ghost w: Worker)
      requires Matches(w) && !w.failed && w.pc == WPrepare(next)
      requires |containers| < |w.tasks| && eligible == Eligible(w.tasks[|containers|])
      requires eligible ==> next == |permanent|
      modifies this
      ensures |created| == |old(created)| + 1 && created == old(created) + [created[|old(created)|]]
      ensures created[|old(created)|].id == id
      ensures containers == old(containers) + [created[|old(created)|]]
      ensures permanent == if eligible then old(permanent) + [created[|old(created)|]] else old(permanent)
      ensures var w' := Step(w, Action.Create(id));
              && w'.Some? && Matches(w'.value) && w'.value.pc == WPrepare(if eligible then next + 1 else next)
              && w'.value.tasks == w.tasks && !w'.value.failed
    {
      var box := new Box(id, eligible);
      assert forall i :: 0 <= i < |created| ==> created[i] != box;
      created := created + [box];
      if eligible {
        permanent := permanent + [box];
      } else {
        temporary := temporary + [box];
      }
      containers := containers + [box];
    }

    /** `news` are what the pairs of get() and start() bring: the id of the started
        container, or None if one of the two failed, of which the worker dies. Each
        turn of the loop is a step of the worker of the step system. */
    method PrepareContainers(tasks: seq<Task>, news: seq<Option<int>>, ghost w: Worker)
        returns (ok: bool, ghost actions: seq<Action>, ghost w': Worker)
      requires |news| == Needed(tasks, |permanent|)
      requires Matches(w) && Inv(w) && !w.failed && w.pc == WPrepare(0) && w.tasks == tasks && containers == []
      modifies this
      ensures ok <==> forall k :: 0 <= k < |news| ==> news[k].Some?
      ensures ok ==> Run(w, actions) == Some(w') && Matches(w') && w'.pc == WReset && w'.tasks == tasks
      ensures ok ==> |containers| == |tasks| && Placed(tasks, permanent, temporary, containers)
      ensures old(permanent) <= permanent && old(created) <= created
      ensures ok ==> forall i :: 0 <= i < |tasks| ==>
                       (containers[i].permanent <==> !tasks[i].needIpc && tasks[i].useStandardBinds)
      ensures ok ==> |permanent| == Max(|old(permanent)|, |PlainPlaces(tasks)|)
      ensures ok ==> |created| == |old(created)| + |news|
      ensures ok ==> forall k :: 0 <= k < |news| ==>
                       created[|old(created)| + k].id == news[k].value
    {
      hide Step, Run, Inv, Placed, Eligible, Distinct, SameBoxes, Are, CountEligible, Needed, PlainPlaces;
      var next, used := 0, 0;
      ghost var made := |created|;
      NothingNeeded(w, |permanent|);
      actions, w' := [], w;
      for i := 0 to |tasks|
        invariant Run(w, actions) == Some(w') && Matches(w') && Inv(w')
        invariant !w'.failed && w'.pc == WPrepare(next) && w'.tasks == tasks && |containers| == i
        invariant next == CountEligible(tasks[..i]) <= |permanent| == Max(|old(permanent)|, next)
        invariant old(permanent) <= permanent && old(created) <= created && |created| == made + used
        invariant used == Needed(tasks[..i], |old(permanent)|)
        invariant forall k :: 0 <= k < used && k < |news| ==>
                    news[k].Some? && created[made + k].id == news[k].value
      {
        CountOfNext(tasks, i);
        NeededGrows(tasks, |old(permanent)|, i);
        ghost var early, before := w', actions;
        var eligible := Eligible(tasks[i]);
        if eligible && next < |permanent| {
          Reuse(next, w');
          actions := actions + [WorkerMove];
        } else {
          if news[used].None? {
            return false, actions, w';
          }
          Create(news[used].value, eligible, next, w');
          used := used + 1;
          actions := actions + [Action.Create(news[used - 1].value)];
        }
        next := if eligible then next + 1 else next;
        w' := Step(early, actions[|actions| - 1]).value;
        RunOneMore(w, before, early, actions[|actions| - 1], w');
        StepKeepsInv(early, actions[|actions| - 1], w');
      }
      assert tasks[..|tasks|] == tasks;
      CountIsCardinality(tasks);
      PreparedAll(w', permanent, temporary, containers, created);
      RunOneMore(w, actions, w', WorkerMove, Step(w', WorkerMove).value);
      actions := actions + [WorkerMove];
      w' := Step(w', WorkerMove).value;
      ok := true;
    }

    /** The end of collect_results: each temporary container's id is given back, then
        that container is waited for, and only then it is the next one's turn; the
        permanent containers stay. `fails` is the number of a waitpid() that fails, of
        which the worker dies. */
    method GiveBack(fails: Option<nat>) returns (ok: bool, log: seq<Farewell>)
      modifies this
      ensures ok <==> fails.None? || fails.value >= |old(temporary)|
      ensures permanent == old(permanent)
      ensures ok ==> temporary == [] && containers == [] && log == Farewells(old(temporary))
      ensures !ok ==> log == Farewells(old(temporary)[..fails.value]) + [Put(old(temporary)[fails.value].id)]
    {
      log := [];
      for i := 0 to |temporary|
        invariant log == Farewells(temporary[..i]) && (fails.Some? ==> fails.value >= i)
      {
        log := log + [Put(temporary[i].id)];
        if fails == Some(i) {
          return false, log;
        }
        log := log + [Reaped(temporary[i])];
        assert temporary[..i + 1][..i] == temporary[..i];
      }
      assert temporary[..|temporary|] == temporary;
      temporary, containers := [], [];
      ok := true;
    }
  }

  /** What a worker does about its temporary containers in the end. */
  datatype Farewell = Put(id: int) | Reaped(box: Box)

  function Farewells(boxes: seq<Box>): seq<Farewell> {
    if boxes == [] then []
    else
      var last := boxes[|boxes| - 1];
      Farewells(boxes[..|boxes| - 1]) + [Put(last.id), Reaped(last)]
  }

  /** Each of them once, in order, its id immediately before itself. */
  lemma {:induction false} FarewellsAlternate(boxes: seq<Box>, i: nat)
    requires i < |boxes|
    ensures |Farewells(boxes)| == 2 * |boxes|
    ensures Farewells(boxes)[2 * i] == Put(boxes[i].id) && Farewells(boxes)[2 * i + 1] == Reaped(boxes[i])
  {
    var front := boxes[..|boxes| - 1];
    if i < |front| {
      FarewellsAlternate(front, i);
    } else if front != [] {
      FarewellsAlternate(front, 0);
    }
  }
}
