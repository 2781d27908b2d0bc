/** All workers of the daemon, the id getter they share, and the cgroup
    directories their containers make: ids are exclusive and never lost. */
module Daemon {
  import opened TaskModel
  import opened Protocol
  import opened ProtocolInvariant
  import opened ContainerPreservation
  import opened WorkerPreservation
  import opened ProtocolPreservation
  import opened ProtocolProgress
  import IdGetter

  datatype Controller = Cpuacct | Memory

  /** `free` is the stack of free ids, its top at the end; `dirs` are the existing
      cgroup directories, named by controller and id. */
  datatype System = System(
    start: int, count: nat, free: seq<int>, workers: seq<Worker>, dirs: set<(Controller, int)>)

  function InitialSystem(start: int, count: nat, boxes: nat): System {
    System(start, count, IdGetter.AllIds(start, count), seq(boxes, _ => INITIAL), {})
  }

  // ------------------------------------------------------------------ steps

  function Fail(s: System, k: nat): System
    requires k < |s.workers|
  {
    s.(workers := s.workers[k := s.workers[k].(failed := true)])
  }

  /** The worker gives back the id of its temporary container j. */
  predicate GivesBack(w: Worker, a: Action) {
    a == WorkerMove && w.pc.WReturnId? && w.pc.j < |w.temporary| && w.temporary[w.pc.j] < |w.conts|
  }

  function DirsAfter(dirs: set<(Controller, int)>, w: Worker, a: Action): set<(Controller, int)> {
    if a.ContainerMove? && a.h < |w.conts| then
      var c := w.conts[a.h];
      match c.pc
      case CMakeCpuacct => dirs + {(Cpuacct, c.id)}
      case CMakeMemory => dirs + {(Memory, c.id)}
      case CDropCpuacct => dirs - {(Cpuacct, c.id)}
      case CDropMemory => dirs - {(Memory, c.id)}
      case _ => dirs
    else dirs
  }

  /** Worker k makes step a. get() and put() fail on an empty and on a full stack. */
  function SystemStep(s: System, k: nat, a: Action): Option<System> {
    if k >= |s.workers| then None
    else
      var w := s.workers[k];
      match Step(w, a)
      case None => None
      case Some(w') =>
        var moved := s.(workers := s.workers[k := w']);
        if a.Create? then
          if s.free == [] then Some(Fail(s, k))
          else if a.id != s.free[|s.free| - 1] then None
          else Some(moved.(free := s.free[..|s.free| - 1]))
        else if GivesBack(w, a) then
          if |s.free| == s.count then Some(Fail(s, k))
          else Some(moved.(free := s.free + [w.conts[w.temporary[w.pc.j]].id]))
        else Some(moved.(dirs := DirsAfter(s.dirs, w, a)))
  }

  function SystemRun(s: System, moves: seq<(nat, Action)>): Option<System> {
    if moves == [] then Some(s)
    else
      var front := SystemRun(s, moves[..|moves| - 1]);
      if front.None? then None
      else SystemStep(front.value, moves[|moves| - 1].0, moves[|moves| - 1].1)
  }

  ghost predicate SystemReachable(s: System) {
    exists boxes, moves :: SystemRun(InitialSystem(s.start, s.count, boxes), moves) == Some(s)
  }

  // -------------------------------------------------------------- held ids

  function Held(conts: seq<Container>): multiset<int> {
    if conts == [] then multiset{}
    else
      var c := conts[|conts| - 1];
      Held(conts[..|conts| - 1]) + (if c.held then multiset{c.id} else multiset{})
  }

  function HeldByAll(workers: seq<Worker>): multiset<int> {
    if workers == [] then multiset{}
    else HeldByAll(workers[..|workers| - 1]) + Held(workers[|workers| - 1].conts)
  }

  ghost predicate SystemInv(s: System) {
    && (forall k :: 0 <= k < |s.workers| ==> Inv(s.workers[k]))
    && multiset(s.free) + HeldByAll(s.workers) == multiset(IdGetter.AllIds(s.start, s.count))
    && (forall d :: d in s.dirs <==> HasOwner(s.workers, d))
  }

  predicate Owns(c: Container, d: (Controller, int)) {
    c.id == d.1 && match d.0 case Cpuacct => c.cpuacct case Memory => c.memory
  }

  predicate HasOwner(workers: seq<Worker>, d: (Controller, int)) {
    exists k, h :: 0 <= k < |workers| && 0 <= h < |workers[k].conts| && Owns(workers[k].conts[h], d)
  }

  // ----------------------------------------------- how held ids add up

  lemma {:induction false} HeldUnchanged(conts: seq<Container>, conts': seq<Container>)
    requires |conts| == |conts'|
    requires forall h :: 0 <= h < |conts| ==> conts'[h].id == conts[h].id && conts'[h].held == conts[h].held
    ensures Held(conts') == Held(conts)
  {
    if conts != [] {
      HeldUnchanged(conts[..|conts| - 1], conts'[..|conts| - 1]);
    }
  }

  lemma HeldAfterCreate(conts: seq<Container>, c: Container)
    requires c.held
    ensures Held(conts + [c]) == Held(conts) + multiset{c.id}
  {
    assert (conts + [c])[..|conts|] == conts;
  }

  lemma {:induction false} HeldAfterGiveBack(conts: seq<Container>, h: nat)
    requires h < |conts| && conts[h].held
    ensures Held(conts) == Held(conts[h := conts[h].(held := false)]) + multiset{conts[h].id}
  {
    var conts' := conts[h := conts[h].(held := false)];
    var front := conts[..|conts| - 1];
    if h == |conts| - 1 {
      assert conts'[..|conts'| - 1] == front;
    } else {
      assert conts'[..|conts'| - 1] == front[h := front[h].(held := false)];
      HeldAfterGiveBack(front, h);
    }
  }

  lemma SwapSummands(a: multiset<int>, b: multiset<int>, x: multiset<int>, y: multiset<int>, common: multiset<int>)
    requires a + x == b + y
    ensures (a + common) + x == (b + common) + y
  {
    forall id ensures ((a + common) + x)[id] == ((b + common) + y)[id] {
      assert (a + x)[id] == (b + y)[id];
    }
  }

  lemma {:induction false} HeldByAllAfterUpdate(workers: seq<Worker>, k: nat, w': Worker)
    requires k < |workers|
    ensures HeldByAll(workers[k := w']) + Held(workers[k].conts) == HeldByAll(workers) + Held(w'.conts)
  {
    hide Held;
    var workers', front, last := workers[k := w'], workers[..|workers| - 1], workers[|workers| - 1];
    if k == |workers| - 1 {
      assert workers'[..|workers'| - 1] == front;
    } else {
      assert workers'[..|workers'| - 1] == front[k := w'];
      HeldByAllAfterUpdate(front, k, w');
      SwapSummands(HeldByAll(front[k := w']), HeldByAll(front), Held(workers[k].conts), Held(w'.conts),
                   Held(last.conts));
    }
  }

  lemma {:induction false} HeldContains(conts: seq<Container>, h: nat)
    requires h < |conts| && conts[h].held
    ensures conts[h].id in Held(conts)
  {
    if h < |conts| - 1 {
      HeldContains(conts[..|conts| - 1], h);
    }
  }

  /** Two containers of one worker that hold the same id count twice. */
  lemma {:induction false} HeldTwice(conts: seq<Container>, h1: nat, h2: nat)
    requires h1 < h2 < |conts| && conts[h1].held && conts[h2].held && conts[h1].id == conts[h2].id
    ensures Held(conts)[conts[h1].id] >= 2
  {
    var front := conts[..|conts| - 1];
    if h2 == |conts| - 1 {
      HeldContains(front, h1);
    } else {
      HeldTwice(front, h1, h2);
    }
  }

  lemma {:induction false} HeldByOne(workers: seq<Worker>, k: nat, id: int)
    requires k < |workers|
    ensures HeldByAll(workers)[id] >= Held(workers[k].conts)[id]
  {
    if k < |workers| - 1 {
      HeldByOne(workers[..|workers| - 1], k, id);
    }
  }

  lemma {:induction false} HeldByTwo(workers: seq<Worker>, k1: nat, k2: nat, id: int)
    requires k1 < k2 < |workers|
    ensures HeldByAll(workers)[id] >= Held(workers[k1].conts)[id] + Held(workers[k2].conts)[id]
  {
    var front := workers[..|workers| - 1];
    if k2 == |workers| - 1 {
      HeldByOne(front, k1, id);
    } else {
      HeldByTwo(front, k1, k2, id);
    }
  }

  /** Every id exists once, and they are the segment the getter was made with. */
  lemma {:induction false} IdsAreDistinct(start: int, count: nat, id: int)
    ensures multiset(IdGetter.AllIds(start, count))[id] == if start <= id < start + count then 1 else 0
  {
    if count == 0 {
    } else {
      var rest := IdGetter.AllIds(start, count - 1);
      assert IdGetter.AllIds(start, count) == [start + count - 1] + rest;
      assert multiset([start + count - 1] + rest) == multiset{start + count - 1} + multiset(rest);
      IdsAreDistinct(start, count - 1, id);
    }
  }

  // ----------------------------------------- what a worker's step does to ids

  predicate SameIds(conts: seq<Container>, conts': seq<Container>) {
    && |conts'| == |conts|
    && forall h :: 0 <= h < |conts| ==> conts'[h].id == conts[h].id && conts'[h].held == conts[h].held
  }

  lemma WriteKeepsIds(w: Worker, i: nat, w': Worker)
    requires Write(w, i) == Some(w')
    ensures SameIds(w.conts, w'.conts)
  {
  }

  lemma MeetKeepsIds(w: Worker, i: nat, pc: WorkerPc, w': Worker)
    requires Meet(w, i, pc) == Some(w')
    ensures SameIds(w.conts, w'.conts)
  {
  }

  lemma WorkerStepKeepsIds(w: Worker, w': Worker)
    requires WorkerStep(w) == Some(w') && !GivesBack(w, WorkerMove)
    ensures SameIds(w.conts, w'.conts)
  {
    hide Write, Meet, TicketAt;
    match w.pc
    case WWrite(i) => WriteKeepsIds(w, i, w');
    case WReleaseArrive(i) => if i < |w.containers| { MeetKeepsIds(w, i, WReleaseWait(i, TicketAt(w, i)), w'); }
    case WCollectArrive(i) => if i < |w.tasks| { MeetKeepsIds(w, i, WCollectWait(i, TicketAt(w, i)), w'); }
    case _ =>
  }

  lemma LocalStepKeepsId(c: Container, c': Container)
    requires ContainerLocal(c) == Some(c')
    ensures c'.id == c.id && c'.held == c.held
  {
  }

  lemma ContainerStepKeepsIds(w: Worker, h: nat, w': Worker)
    requires h < |w.conts| && ContainerStep(w, h) == Some(w')
    ensures SameIds(w.conts, w'.conts)
  {
    hide ContainerLocal, ContainerStep;
    ContainerStepInPlace(w, h, w');
    if ContainerLocal(w.conts[h]) == Some(w'.conts[h]) {
      LocalStepKeepsId(w.conts[h], w'.conts[h]);
    }
  }

  lemma SlaveStepKeepsIds(w: Worker, h: nat, w': Worker)
    requires h < |w.conts| && SlaveStep(w, h) == Some(w')
    ensures SameIds(w.conts, w'.conts)
  {
  }

  lemma OtherStepKeepsIds(w: Worker, a: Action, w': Worker)
    requires Step(w, a) == Some(w') && !a.Create? && a != WorkerMove
    ensures SameIds(w.conts, w'.conts)
  {
    hide WorkerStep, ContainerStep, SlaveStep;
    if a.ContainerMove? {
      ContainerStepKeepsIds(w, a.h, w');
    } else if a.SlaveMove? {
      SlaveStepKeepsIds(w, a.h, w');
    }
  }

  /** Ids change hands only when a container is created and when one is given back. */
  lemma StepMovesIds(w: Worker, a: Action, w': Worker)
    requires Inv(w) && Step(w, a) == Some(w')
    ensures if a.Create? then Held(w'.conts) == Held(w.conts) + multiset{a.id}
            else if GivesBack(w, a) then Held(w.conts) == Held(w'.conts) + multiset{w.conts[w.temporary[w.pc.j]].id}
            else Held(w'.conts) == Held(w.conts)
  {
    hide Staged, RunOk, AssignedOk, WorkerStep;
    if a.Create? {
      CreateIsCreatedFor(w, a.id, w');
      HeldAfterCreate(w.conts, w'.conts[|w.conts|]);
    } else if GivesBack(w, a) {
      GiveBackStep(w, w');
      HeldAfterGiveBack(w.conts, w.temporary[w.pc.j]);
    } else if a == WorkerMove {
      WorkerStepKeepsIds(w, w');
      HeldUnchanged(w.conts, w'.conts);
    } else {
      OtherStepKeepsIds(w, a, w');
      HeldUnchanged(w.conts, w'.conts);
    }
  }

  lemma GiveBackStep(w: Worker, w': Worker)
    requires GivesBack(w, WorkerMove) && WorkerStep(w) == Some(w')
    ensures var h := w.temporary[w.pc.j]; w'.conts == w.conts[h := w.conts[h].(held := false)]
  {
  }

  // -------------------------------------------------------------- exclusivity

  /** No two containers, of the same worker or of two, hold the same id, and none
      of the held ids is free. */
  lemma HeldIdsAreExclusive(s: System, k1: nat, h1: nat, k2: nat, h2: nat)
    requires SystemInv(s) && k1 < |s.workers| && k2 < |s.workers|
    requires h1 < |s.workers[k1].conts| && h2 < |s.workers[k2].conts|
    requires s.workers[k1].conts[h1].held && s.workers[k2].conts[h2].held
    ensures s.workers[k1].conts[h1].id == s.workers[k2].conts[h2].id ==> k1 == k2 && h1 == h2
    ensures s.workers[k1].conts[h1].id !in s.free
    ensures s.start <= s.workers[k1].conts[h1].id < s.start + s.count
  {
    hide Inv;
    var id := s.workers[k1].conts[h1].id;
    IdsAreDistinct(s.start, s.count, id);
    HeldContains(s.workers[k1].conts, h1);
    HeldByOne(s.workers, k1, id);
    if id == s.workers[k2].conts[h2].id {
      HeldContains(s.workers[k2].conts, h2);
      if k1 < k2 {
        HeldByTwo(s.workers, k1, k2, id);
      } else if k2 < k1 {
        HeldByTwo(s.workers, k2, k1, id);
      } else if h1 < h2 {
        HeldTwice(s.workers[k1].conts, h1, h2);
      } else if h2 < h1 {
        HeldTwice(s.workers[k1].conts, h2, h1);
      }
    }
  }

  /** Whoever has a cgroup or a living slave holds its id. */
  lemma UsersHold(w: Worker, h: nat)
    requires Inv(w) && h < |w.conts|
    requires w.conts[h].cpuacct || w.conts[h].memory || Alive(w.conts[h].slave)
    ensures w.conts[h].held
  {
    hide Shape, RunOk, JudgedIn, AfterOpen, BeforeOpen, Fresh;
    var c := w.conts[h];
    if h in w.containers {
      var i :| 0 <= i < |w.containers| && w.containers[i] == h;
      assert AtStage(c, StageAt(w.pc, i), ContextOf(w, i));
    } else {
      assert Unused(c);
    }
  }

  // ------------------------------------------------------- every step's keep

  lemma MoveOneId(free: multiset<int>, free': multiset<int>, all: multiset<int>, all': multiset<int>,
                  own: multiset<int>, own': multiset<int>, total: multiset<int>, one: multiset<int>)
    requires free + all == total && all' + own == all + own'
    requires (free == free' + one && own' == own + one) || (free' == free + one && own == own' + one)
    ensures free' + all' == total
  {
    forall id ensures (free' + all')[id] == total[id] {
      assert (free + all)[id] == total[id];
      assert (all' + own)[id] == (all + own')[id];
    }
  }

  lemma StepKeepsConservation(s: System, k: nat, a: Action, s': System)
    requires SystemInv(s) && SystemStep(s, k, a) == Some(s')
    ensures multiset(s'.free) + HeldByAll(s'.workers) == multiset(IdGetter.AllIds(s.start, s.count))
    ensures s'.start == s.start && s'.count == s.count
  {
    hide Inv, Step, HasOwner, DirsAfter, HeldByAll, Held, IdGetter.AllIds;
    var w, w' := s.workers[k], s'.workers[k];
    HeldByAllAfterUpdate(s.workers, k, w');
    var one := if a.Create? then multiset{a.id}
               else if GivesBack(w, a) then multiset{w.conts[w.temporary[w.pc.j]].id} else multiset{};
    if Step(w, a) == Some(w') {
      StepMovesIds(w, a, w');
    }
    if a.Create? && s.free != [] {
      assert s.free == s.free[..|s.free| - 1] + [s.free[|s.free| - 1]];
    }
    if w'.conts == w.conts {
      MoveOneId(multiset(s.free), multiset(s'.free), HeldByAll(s.workers), HeldByAll(s'.workers),
                Held(w.conts), Held(w'.conts), multiset(IdGetter.AllIds(s.start, s.count)), multiset{});
    } else {
      MoveOneId(multiset(s.free), multiset(s'.free), HeldByAll(s.workers), HeldByAll(s'.workers),
                Held(w.conts), Held(w'.conts), multiset(IdGetter.AllIds(s.start, s.count)), one);
    }
  }

  lemma StepLosesNoContainer(w: Worker, a: Action, w': Worker)
    requires Step(w, a) == Some(w')
    ensures |w.conts| <= |w'.conts|
  {
    hide WorkerStep;
    if a == WorkerMove {
      WorkerStepKeepsControllers(w, w');
    } else if a.Create? {
      CreateIsCreatedFor(w, a.id, w');
    } else {
      OtherStepKeepsIds(w, a, w');
    }
  }

  /** The controllers a container has before and after a step of its worker. */
  lemma StepMovesControllers(w: Worker, a: Action, w': Worker, h: nat, d: (Controller, int))
    requires Inv(w) && Step(w, a) == Some(w') && h < |w'.conts|
    ensures Owns(w'.conts[h], d) <==>
            if a == ContainerMove(h) && h < |w.conts| && w.conts[h].id == d.1 && MakesOrDrops(w.conts[h].pc, d.0)
            then Makes(w.conts[h].pc, d.0)
            else h < |w.conts| && Owns(w.conts[h], d)
    ensures |w.conts| <= |w'.conts|
  {
    hide Shape, Staged, RunOk;
    if a == WorkerMove {
      WorkerStepKeepsControllers(w, w');
    } else if a.Create? {
      CreateIsCreatedFor(w, a.id, w');
    } else {
      OtherStepMovesControllers(w, a, w', h, d);
    }
  }

  predicate Makes(pc: ContainerPc, kind: Controller) {
    match kind case Cpuacct => pc == CMakeCpuacct case Memory => pc == CMakeMemory
  }

  predicate MakesOrDrops(pc: ContainerPc, kind: Controller) {
    match kind
    case Cpuacct => pc == CMakeCpuacct || pc == CDropCpuacct
    case Memory => pc == CMakeMemory || pc == CDropMemory
  }

  lemma WorkerStepKeepsControllers(w: Worker, w': Worker)
    requires WorkerStep(w) == Some(w')
    ensures |w'.conts| == |w.conts|
    ensures forall h :: 0 <= h < |w.conts| ==>
              && w'.conts[h].id == w.conts[h].id
              && w'.conts[h].cpuacct == w.conts[h].cpuacct && w'.conts[h].memory == w.conts[h].memory
  {
  }

  lemma LocalStepMovesControllers(c: Container, c': Container, d: (Controller, int))
    requires ContainerLocal(c) == Some(c')
    ensures Owns(c', d) <==>
            if c.id == d.1 && MakesOrDrops(c.pc, d.0) then Makes(c.pc, d.0) else Owns(c, d)
  {
  }

  /** A step of container k changes no controller but k's own. */
  lemma ContainerStepMovesControllers(w: Worker, k: nat, w': Worker, h: nat, d: (Controller, int))
    requires k < |w.conts| && ContainerStep(w, k) == Some(w') && h < |w'.conts|
    ensures |w'.conts| == |w.conts|
    ensures Owns(w'.conts[h], d) <==>
            if k == h && w.conts[h].id == d.1 && MakesOrDrops(w.conts[h].pc, d.0)
            then Makes(w.conts[h].pc, d.0)
            else Owns(w.conts[h], d)
  {
    hide ContainerLocal, ContainerStep;
    ContainerStepInPlace(w, k, w');
    if ContainerLocal(w.conts[k]) == Some(w'.conts[k]) {
      LocalStepMovesControllers(w.conts[k], w'.conts[k], d);
    }
  }

  lemma SlaveStepKeepsControllers(w: Worker, k: nat, w': Worker, h: nat, d: (Controller, int))
    requires k < |w.conts| && SlaveStep(w, k) == Some(w') && h < |w'.conts|
    ensures |w'.conts| == |w.conts| && Owns(w'.conts[h], d) == Owns(w.conts[h], d)
  {
  }

  lemma OtherStepMovesControllers(w: Worker, a: Action, w': Worker, h: nat, d: (Controller, int))
    requires Step(w, a) == Some(w') && a != WorkerMove && !a.Create? && h < |w'.conts|
    ensures |w'.conts| == |w.conts|
    ensures Owns(w'.conts[h], d) <==>
            if a == ContainerMove(h) && w.conts[h].id == d.1 && MakesOrDrops(w.conts[h].pc, d.0)
            then Makes(w.conts[h].pc, d.0)
            else Owns(w.conts[h], d)
  {
    hide WorkerStep, ContainerStep, SlaveStep, Makes, MakesOrDrops;
    if a.ContainerMove? {
      ContainerStepMovesControllers(w, a.h, w', h, d);
    } else if a.SlaveMove? {
      SlaveStepKeepsControllers(w, a.h, w', h, d);
    }
  }

  lemma OwnersAre(workers: seq<Worker>, d: (Controller, int), k: nat, h: nat)
    requires k < |workers| && h < |workers[k].conts| && Owns(workers[k].conts[h], d)
    ensures HasOwner(workers, d)
  {
  }

  /** If container h of worker k is at d's controller, nobody else can own d. */
  lemma OwnerIsUnique(s: System, k: nat, h: nat, k2: nat, h2: nat, d: (Controller, int))
    requires SystemInv(s) && k < |s.workers| && h < |s.workers[k].conts|
    requires s.workers[k].conts[h].id == d.1 && MakesOrDrops(s.workers[k].conts[h].pc, d.0)
    requires k2 < |s.workers| && h2 < |s.workers[k2].conts| && Owns(s.workers[k2].conts[h2], d)
    ensures k == k2 && h == h2
  {
    hide Inv, HasOwner;
    ControllerStepsHold(s.workers[k], h);
    UsersHold(s.workers[k2], h2);
    HeldIdsAreExclusive(s, k, h, k2, h2);
  }

  lemma ControllersAtStage(c: Container, st: Stage, x: Context)
    requires AtStage(c, st, x) && (MakesOrDrops(c.pc, Cpuacct) || MakesOrDrops(c.pc, Memory))
    ensures c.held
    ensures c.cpuacct == (c.pc != CMakeCpuacct && c.pc != CDropMemory)
    ensures c.memory == (c.pc == CDropCpuacct || c.pc == CDropMemory)
  {
    hide JudgedIn, Fresh;
  }

  lemma ControllerStepsHold(w: Worker, h: nat)
    requires Inv(w) && h < |w.conts|
    requires MakesOrDrops(w.conts[h].pc, Cpuacct) || MakesOrDrops(w.conts[h].pc, Memory)
    ensures w.conts[h].held
    ensures w.conts[h].cpuacct == (w.conts[h].pc != CMakeCpuacct && w.conts[h].pc != CDropMemory)
    ensures w.conts[h].memory == (w.conts[h].pc == CDropCpuacct || w.conts[h].pc == CDropMemory)
  {
    hide Shape, RunOk, AtStage;
    if h in w.containers {
      var i :| 0 <= i < |w.containers| && w.containers[i] == h;
      ControllersAtStage(w.conts[h], StageAt(w.pc, i), ContextOf(w, i));
    } else {
      assert Unused(w.conts[h]);
    }
  }

  lemma StepKeepsDirs(s: System, k: nat, a: Action, s': System, d: (Controller, int))
    requires SystemInv(s) && SystemStep(s, k, a) == Some(s')
    ensures d in s'.dirs <==> HasOwner(s'.workers, d)
  {
    hide Inv, Step, Owns, Makes, MakesOrDrops, HasOwner;
    var w, w' := s.workers[k], s'.workers[k];
    if s' == Fail(s, k) {
      FailKeepsOwners(s, k, d);
    } else if a.ContainerMove? && a.h < |w.conts| && w.conts[a.h].id == d.1 && MakesOrDrops(w.conts[a.h].pc, d.0) {
      forall h | 0 <= h < |w'.conts|
        ensures |w'.conts| >= |w.conts|
        ensures h < |w.conts| && h != a.h ==> (Owns(w'.conts[h], d) <==> Owns(w.conts[h], d))
        ensures h == a.h ==> (Owns(w'.conts[h], d) <==> Makes(w.conts[h].pc, d.0))
      {
        StepMovesControllers(w, a, w', h, d);
      }
      OtherStepKeepsIds(w, a, w');
      StepOnOwner(s, k, a.h, s', d);
    } else {
      forall h | 0 <= h < |w'.conts|
        ensures Owns(w'.conts[h], d) <==> h < |w.conts| && Owns(w.conts[h], d)
      {
        StepMovesControllers(w, a, w', h, d);
      }
      StepLosesNoContainer(w, a, w');
      StepElsewhere(s, k, a, s', d);
    }
  }

  lemma FailKeepsOwners(s: System, k: nat, d: (Controller, int))
    requires k < |s.workers|
    ensures HasOwner(Fail(s, k).workers, d) == HasOwner(s.workers, d)
  {
    if HasOwner(s.workers, d) {
      var k2, h :| 0 <= k2 < |s.workers| && 0 <= h < |s.workers[k2].conts| && Owns(s.workers[k2].conts[h], d);
      assert Owns(Fail(s, k).workers[k2].conts[h], d);
    }
  }

  /** The directory's own container makes or drops it. */
  lemma StepOnOwner(s: System, k: nat, h: nat, s': System, d: (Controller, int))
    requires SystemInv(s) && k < |s.workers| && h < |s.workers[k].conts|
    requires s.workers[k].conts[h].id == d.1 && MakesOrDrops(s.workers[k].conts[h].pc, d.0)
    requires |s'.workers| == |s.workers| && forall i :: 0 <= i < |s.workers| && i != k ==> s'.workers[i] == s.workers[i]
    requires |s'.workers[k].conts| == |s.workers[k].conts|
    requires forall i :: 0 <= i < |s.workers[k].conts| && i != h ==>
               (Owns(s'.workers[k].conts[i], d) <==> Owns(s.workers[k].conts[i], d))
    requires Owns(s'.workers[k].conts[h], d) <==> Makes(s.workers[k].conts[h].pc, d.0)
    requires s'.dirs == DirsAfter(s.dirs, s.workers[k], ContainerMove(h))
    ensures d in s'.dirs <==> HasOwner(s'.workers, d)
  {
    hide Inv;
    if HasOwner(s'.workers, d) {
      var k2, h2 :| 0 <= k2 < |s'.workers| && 0 <= h2 < |s'.workers[k2].conts| && Owns(s'.workers[k2].conts[h2], d);
      if k2 != k || h2 != h {
        assert Owns(s.workers[k2].conts[h2], d);
        OwnerIsUnique(s, k, h, k2, h2, d);
      }
    }
    if Makes(s.workers[k].conts[h].pc, d.0) {
      OwnersAre(s'.workers, d, k, h);
    }
  }

  /** The step neither makes nor drops d. */
  lemma StepElsewhere(s: System, k: nat, a: Action, s': System, d: (Controller, int))
    requires SystemInv(s) && k < |s.workers|
    requires !(a.ContainerMove? && a.h < |s.workers[k].conts| && s.workers[k].conts[a.h].id == d.1
               && MakesOrDrops(s.workers[k].conts[a.h].pc, d.0))
    requires |s'.workers| == |s.workers| && forall i :: 0 <= i < |s.workers| && i != k ==> s'.workers[i] == s.workers[i]
    requires |s.workers[k].conts| <= |s'.workers[k].conts|
    requires forall i :: 0 <= i < |s'.workers[k].conts| ==>
               (Owns(s'.workers[k].conts[i], d) <==> i < |s.workers[k].conts| && Owns(s.workers[k].conts[i], d))
    requires s'.dirs == s.dirs || s'.dirs == DirsAfter(s.dirs, s.workers[k], a)
    ensures d in s'.dirs <==> HasOwner(s'.workers, d)
  {
    hide Inv;
    assert d in s'.dirs <==> d in s.dirs;
    if HasOwner(s.workers, d) {
      var k2, h2 :| 0 <= k2 < |s.workers| && 0 <= h2 < |s.workers[k2].conts| && Owns(s.workers[k2].conts[h2], d);
      OwnersAre(s'.workers, d, k2, h2);
    }
    if HasOwner(s'.workers, d) {
      var k2, h2 :| 0 <= k2 < |s'.workers| && 0 <= h2 < |s'.workers[k2].conts| && Owns(s'.workers[k2].conts[h2], d);
      OwnersAre(s.workers, d, k2, h2);
    }
  }

  lemma SystemStepKeepsInv(s: System, k: nat, a: Action, s': System)
    requires SystemInv(s) && SystemStep(s, k, a) == Some(s')
    ensures SystemInv(s') && s'.start == s.start && s'.count == s.count
  {
    hide Inv, Step, DirsAfter, HeldByAll, IdGetter.AllIds, HasOwner;
    StepKeepsConservation(s, k, a, s');
    forall d ensures d in s'.dirs <==> HasOwner(s'.workers, d) {
      StepKeepsDirs(s, k, a, s', d);
    }
    FailureKeepsInv(s.workers[k]);
    if Step(s.workers[k], a).Some? {
      StepKeepsInv(s.workers[k], a, Step(s.workers[k], a).value);
    }
  }

  lemma {:induction false} FreshWorkersHoldNothing(boxes: nat)
    ensures HeldByAll(seq(boxes, _ => INITIAL)) == multiset{}
  {
    if boxes > 0 {
      assert seq(boxes, _ => INITIAL)[..boxes - 1] == seq(boxes - 1, _ => INITIAL);
      FreshWorkersHoldNothing(boxes - 1);
    }
  }

  lemma {:induction false} SystemInvariantHolds(start: int, count: nat, boxes: nat, moves: seq<(nat,
      Action)>, s: System)
    requires SystemRun(InitialSystem(start, count, boxes), moves) == Some(s)
    ensures SystemInv(s) && s.start == start && s.count == count
  {
    hide Inv, SystemStep;
    if moves == [] {
      FreshWorkersHoldNothing(boxes);
      InvariantHolds([], INITIAL);
    } else {
      var last := moves[|moves| - 1];
      var s0 := SystemRun(InitialSystem(start, count, boxes), moves[..|moves| - 1]).value;
      SystemInvariantHolds(start, count, boxes, moves[..|moves| - 1], s0);
      SystemStepKeepsInv(s0, last.0, last.1, s);
    }
  }

  // -------------------------------------------------------------- main results

  lemma SystemReachableInv(s: System)
    requires SystemReachable(s)
    ensures SystemInv(s)
  {
    hide SystemInv;
    var boxes, moves :| SystemRun(InitialSystem(s.start, s.count, boxes), moves) == Some(s);
    SystemInvariantHolds(s.start, s.count, boxes, moves, s);
  }

  /** Whatever the workers have done so far, the free ids and the held ones are
      together exactly the ids the getter was made with, each once. */
  lemma IdsAreConserved(s: System)
    requires SystemReachable(s)
    ensures multiset(s.free) + HeldByAll(s.workers) == multiset(IdGetter.AllIds(s.start, s.count))
    ensures |s.free| + |HeldByAll(s.workers)| == s.count
    ensures forall id ::
              (multiset(s.free) + HeldByAll(s.workers))[id] == if s.start <= id < s.start + s.count then 1 else 0
  {
    hide Inv;
    SystemReachableInv(s);
    assert |multiset(s.free) + HeldByAll(s.workers)| == |IdGetter.AllIds(s.start, s.count)|;
    forall id
      ensures (multiset(s.free) + HeldByAll(s.workers))[id] == if s.start <= id < s.start + s.count then 1 else 0
    {
      IdsAreDistinct(s.start, s.count, id);
    }
  }

  /** No two containers hold one id, and a free id has no cgroup directory, no
      controller object and no living slave anywhere. */
  lemma FreeIdsAreClean(s: System, id: int)
    requires SystemReachable(s) && id in s.free
    ensures (Cpuacct, id) !in s.dirs && (Memory, id) !in s.dirs
    ensures forall k, h :: 0 <= k < |s.workers| && 0 <= h < |s.workers[k].conts| && s.workers[k].conts[h].id == id ==>
              var c := s.workers[k].conts[h]; !c.held && !c.cpuacct && !c.memory && !Alive(c.slave)
  {
    hide Inv;
    SystemReachableInv(s);
    forall k, h | 0 <= k < |s.workers| && 0 <= h < |s.workers[k].conts| && s.workers[k].conts[h].id == id
      ensures var c := s.workers[k].conts[h]; !c.held && !c.cpuacct && !c.memory && !Alive(c.slave)
    {
      if s.workers[k].conts[h].held {
        HeldIdsAreExclusive(s, k, h, k, h);
      } else if s.workers[k].conts[h].cpuacct || s.workers[k].conts[h].memory || Alive(s.workers[k].conts[h].slave) {
        UsersHold(s.workers[k], h);
      }
    }
  }

  lemma IdsAreExclusive(s: System, k1: nat, h1: nat, k2: nat, h2: nat)
    requires SystemReachable(s) && k1 < |s.workers| && k2 < |s.workers|
    requires h1 < |s.workers[k1].conts| && h2 < |s.workers[k2].conts|
    requires s.workers[k1].conts[h1].held && s.workers[k2].conts[h2].held && (k1 != k2 || h1 != h2)
    ensures s.workers[k1].conts[h1].id != s.workers[k2].conts[h2].id
    ensures s.workers[k1].conts[h1].id !in s.free
    ensures s.start <= s.workers[k1].conts[h1].id < s.start + s.count
  {
    hide SystemInv;
    SystemReachableInv(s);
    HeldIdsAreExclusive(s, k1, h1, k2, h2);
  }

  /** A container that makes a cgroup never finds the directory there already, so
      the usage it will read is that of its own slave only. */
  lemma CgroupsAreMadeFresh(s: System, k: nat, h: nat, kind: Controller)
    requires SystemReachable(s) && k < |s.workers| && h < |s.workers[k].conts|
    requires Makes(s.workers[k].conts[h].pc, kind)
    ensures (kind, s.workers[k].conts[h].id) !in s.dirs
  {
    hide Inv;
    SystemReachableInv(s);
    var d := (kind, s.workers[k].conts[h].id);
    if d in s.dirs {
      var k2, h2 :| 0 <= k2 < |s.workers| && 0 <= h2 < |s.workers[k2].conts| && Owns(s.workers[k2].conts[h2], d);
      OwnerIsUnique(s, k, h, k2, h2, d);
      ControllerStepsHold(s.workers[k], h);
    }
  }

  /** Giving an id back never finds the stack full. */
  lemma PutNeverFindsStackFull(s: System, k: nat)
    requires SystemReachable(s) && k < |s.workers| && GivesBack(s.workers[k], WorkerMove)
    ensures |s.free| < s.count
  {
    hide Staged, RunOk, AssignedOk;
    SystemReachableInv(s);
    IdsAreConserved(s);
    var w := s.workers[k];
    var id := w.conts[w.temporary[w.pc.j]].id;
    HeldContains(w.conts, w.temporary[w.pc.j]);
    HeldByOne(s.workers, k, id);
    assert id in HeldByAll(s.workers);
  }

  /** Between requests a worker holds the ids of its permanent containers only:
      every temporary id has been given back. */
  lemma IdleWorkersHoldPermanentIds(s: System, k: nat, h: nat)
    requires SystemReachable(s) && k < |s.workers| && s.workers[k].pc == WIdle && h < |s.workers[k].conts|
    ensures s.workers[k].conts[h].held <==> s.workers[k].conts[h].permanent
  {
    hide RunOk, AtStage;
    SystemReachableInv(s);
    assert Unused(s.workers[k].conts[h]);
  }

  lemma ReachableStep(w: Worker, a: Action, w': Worker)
    requires Reachable(w) && Step(w, a) == Some(w')
    ensures Reachable(w')
  {
    hide Step;
    var actions :| Run(INITIAL, actions) == Some(w);
    assert (actions + [a])[..|actions|] == actions;
    assert Run(INITIAL, actions + [a]) == Some(w');
  }

  lemma {:induction false} WorkersAreReachable(start: int, count: nat, boxes: nat, moves: seq<(nat, Action)>,
      s: System, k: nat)
    requires SystemRun(InitialSystem(start, count, boxes), moves) == Some(s) && k < |s.workers|
    ensures Reachable(s.workers[k])
  {
    hide Step, DirsAfter;
    if moves == [] {
      assert Run(INITIAL, []) == Some(INITIAL);
    } else {
      var s0 := SystemRun(InitialSystem(start, count, boxes), moves[..|moves| - 1]).value;
      var last := moves[|moves| - 1];
      WorkersAreReachable(start, count, boxes, moves[..|moves| - 1], s0, k);
      var w := s0.workers[k];
      if last.0 == k {
        if s.workers[k] == w.(failed := true) {
          assert Step(w, Die) == Some(w.(failed := true)) by {
            StepNeedsLife(w, last.1);
          }
          ReachableStep(w, Die, s.workers[k]);
        } else {
          ReachableStep(w, last.1, s.workers[k]);
        }
      }
    }
  }

  lemma StepNeedsLife(w: Worker, a: Action)
    requires Step(w, a).Some?
    ensures !w.failed && Step(w, Die) == Some(w.(failed := true))
  {
  }

  /** Whatever the other workers do, the state of each worker is one that the protocol
      of a single worker reaches, so what holds of all such states holds of it. (What
      it can do next may also depend on the free ids, see NoWorkerIsStuck.) */
  lemma WorkersRunTheProtocol(s: System, k: nat)
    requires SystemReachable(s) && k < |s.workers|
    ensures Reachable(s.workers[k])
  {
    var boxes, moves :| SystemRun(InitialSystem(s.start, s.count, boxes), moves) == Some(s);
    WorkersAreReachable(s.start, s.count, boxes, moves, s, k);
  }

  /** Worker k can go on, in the system as it is. */
  ghost predicate WorkerCanAdvance(s: System, k: nat)
    requires k < |s.workers|
  {
    exists a :: Internal(a) && SystemStep(s, k, a).Some? && !SystemStep(s, k, a).value.workers[k].failed
  }

  /** Its next step is to create a container. */
  predicate NeedsId(w: Worker) {
    Step(w, Create(0)).Some?
  }

  lemma CreateTakesAnyId(w: Worker, id: int, other: int)
    requires Step(w, Create(id)).Some? && !Step(w, Create(id)).value.failed
    ensures Step(w, Create(other)).Some? && !Step(w, Create(other)).value.failed
  {
  }

  lemma AdvanceLifts(s: System, k: nat, a: Action)
    requires SystemReachable(s) && k < |s.workers| && Internal(a)
    requires Step(s.workers[k], a).Some? && !Step(s.workers[k], a).value.failed
    ensures WorkerCanAdvance(s, k) || (s.free == [] && NeedsId(s.workers[k]))
  {
    hide Step, DirsAfter, SystemReachable;
    var w := s.workers[k];
    if a.Create? {
      CreateTakesAnyId(w, a.id, 0);
      if s.free != [] {
        var top := s.free[|s.free| - 1];
        CreateTakesAnyId(w, a.id, top);
        assert SystemStep(s, k, Create(top)).Some?;
      }
    } else {
      if GivesBack(w, a) {
        PutNeverFindsStackFull(s, k);
      }
      assert SystemStep(s, k, a).Some?;
    }
  }

  /** The daemon as a whole does not get stuck: a worker with a request under way can
      make a step without failing, whatever the others do, unless one of its slaves
      has failed or it needs an id and there is none. */
  lemma NoWorkerIsStuck(s: System, k: nat)
    requires SystemReachable(s) && k < |s.workers| && !s.workers[k].failed && s.workers[k].pc != WIdle
    ensures WorkerCanAdvance(s, k) || Broken(s.workers[k]) || (s.free == [] && NeedsId(s.workers[k]))
  {
    hide Step, SystemStep, SystemReachable, Broken;
    WorkersRunTheProtocol(s, k);
    NoDeadlock(s.workers[k]);
    if !Broken(s.workers[k]) {
      var a :| Internal(a) && Step(s.workers[k], a).Some? && !Step(s.workers[k], a).value.failed;
      AdvanceLifts(s, k, a);
    }
  }

  /** The call of get or put that step a of worker k makes, if any, with its result. */
  function CallOf(s: System, k: nat, a: Action): seq<IdGetter.Event> {
    if k >= |s.workers| || Step(s.workers[k], a).None? then []
    else if a.Create? then [if s.free == [] then IdGetter.GotNone(k) else IdGetter.Got(k, a.id)]
    else if GivesBack(s.workers[k], a) then
      var w := s.workers[k];
      [if |s.free| >= s.count then IdGetter.GaveNone(k) else IdGetter.Gave(k, w.conts[w.temporary[w.pc.j]].id)]
    else []
  }

  function Calls(s: System, moves: seq<(nat, Action)>): seq<IdGetter.Event> {
    if moves == [] then []
    else
      var front, last := moves[..|moves| - 1], moves[|moves| - 1];
      match SystemRun(s, front)
      case None => []
      case Some(s1) => Calls(s, front) + CallOf(s1, last.0, last.1)
  }

  lemma StepIsCall(s: System, k: nat, a: Action, s': System)
    requires SystemStep(s, k, a) == Some(s') && |s.free| <= s.count
    ensures s'.count == s.count && |s'.free| <= s.count
    ensures CallOf(s, k, a) == [] ==> s'.free == s.free
    ensures forall e :: CallOf(s, k, a) == [e] ==>
              match e
              case Got(_, id) => s.free != [] && s.free[|s.free| - 1] == id && s'.free == s.free[..|s.free| - 1]
              case GotNone(_) => s.free == [] && s'.free == s.free
              case Gave(_, id) => |s.free| < s.count && s'.free == s.free + [id]
              case GaveNone(_) => |s.free| >= s.count && s'.free == s.free
    ensures |CallOf(s, k, a)| <= 1
  {
    hide Step, DirsAfter;
  }

  /** The free ids are what the calls of all workers have made of the fresh stack, each
      with the result that an atomic get or put has then: the last id put is the first
      to be got. */
  lemma {:induction false} PoolIsAStack(start: int, count: nat, boxes: nat, moves: seq<(nat, Action)>, s: System)
    requires SystemRun(InitialSystem(start, count, boxes), moves) == Some(s)
    ensures s.count == count && |s.free| <= count
    ensures IdGetter.Replay(IdGetter.AllIds(start, count), count, Calls(InitialSystem(start, count, boxes), moves))
         == Some(s.free)
  {
    hide SystemStep, CallOf;
    if moves != [] {
      var s0 := InitialSystem(start, count, boxes);
      var front, last := moves[..|moves| - 1], moves[|moves| - 1];
      var s1 := SystemRun(s0, front).value;
      PoolIsAStack(start, count, boxes, front, s1);
      StepIsCall(s1, last.0, last.1, s);
      var call := CallOf(s1, last.0, last.1);
      if call != [] {
        assert call == [call[0]];
        IdGetter.ReplayOneMore(IdGetter.AllIds(start, count), count, Calls(s0, front), call[0]);
      } else {
        assert Calls(s0, moves) == Calls(s0, front);
      }
    }
  }
}
