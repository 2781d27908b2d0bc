/** What a slave has when it becomes its task's program. */
module Loading {
  import opened TaskModel
  import opened Protocol
  import opened ProtocolInvariant
  import opened ContainerPreservation
  import opened StartPreservation
  import opened WorkerPreservation
  import opened ProtocolPreservation
  import opened ProtocolSafety

  /** A descriptor is what the worker wrote, or what open() gave for a file. */
  predicate Agrees(fd: StreamFd, written: StreamFd) {
    if written == Unopened then fd == Unopened || fd.OpenedAs? else fd == written
  }

  predicate OpenAgrees(td: TaskData) {
    && Agrees(td.open.stdin, FdFor(td.param.stdin, false, false))
    && Agrees(td.open.stdout, FdFor(td.param.stdout, true, false))
    && Agrees(td.open.stderr, FdFor(td.param.stderr, true, true))
  }

  /** How far a living slave has come with opening its files. */
  predicate OpenSoFar(c: Container) {
    Alive(c.slave) ==>
      match c.slave.pc
      case SOpen(k) => (k >= 1 ==> c.td.open.stdin != Unopened) && (k >= 2 ==> c.td.open.stdout != Unopened)
      case SAddPath => AllOpen(c.td.open)
      case SLoad => AllOpen(c.td.open)
      case SExec(t) => AllOpen(c.td.open) && t == c.td.param
      case _ => true
  }

  predicate AllOpen(o: Descriptors) {
    o.stdin != Unopened && o.stdout != Unopened && o.stderr != Unopened
  }

  predicate Equipped(c: Container) {
    OpenAgrees(c.td) && OpenSoFar(c)
  }

  predicate AllEquipped(w: Worker) {
    forall h :: 0 <= h < |w.conts| ==> Equipped(w.conts[h])
  }

  lemma WriteEquips(w: Worker, i: nat, w': Worker)
    requires Staged(w) && AllEquipped(w) && w.pc == WWrite(i) && Write(w, i) == Some(w')
    ensures AllEquipped(w')
  {
    if i < |w.containers| {
      assert AtStage(w.conts[w.containers[i]], Away, ContextOf(w, i));
    }
  }

  lemma WorkerEquips(w: Worker, w': Worker)
    requires Staged(w) && AllEquipped(w) && WorkerStep(w) == Some(w')
    ensures AllEquipped(w')
  {
    hide Staged, OpenAgrees;
    match w.pc
    case WWrite(i) => hide Write; WriteEquips(w, i, w');
    case _ =>
  }

  lemma ReplacedEquips(w: Worker, h: nat, c': Container, w': Worker)
    requires AllEquipped(w) && h < |w.conts| && Equipped(c') && w'.conts == w.conts[h := c']
    ensures AllEquipped(w')
  {
  }

  /** A step that leaves parameters and descriptors alone, and the slave too unless it
      has not begun to open files. */
  predicate Leaves(c: Container, c': Container) {
    && c'.td.param == c.td.param && c'.td.open == c.td.open
    && (c'.slave == c.slave ||
        (c'.slave.Slave? && (c'.slave.pc == SArrive || c'.slave.pc.SWait? || c'.slave.pc == SClear)))
  }

  lemma LeftIsEquipped(c: Container, c': Container)
    requires Equipped(c) && Leaves(c, c')
    ensures Equipped(c')
  {
    hide FdFor;
  }

  lemma LocalEquips(c: Container, c': Container)
    requires Equipped(c) && ContainerLocal(c) == Some(c')
    ensures Equipped(c')
  {
    hide Equipped, WithStatus;
    LeftIsEquipped(c, c');
  }

  lemma TouchEquips(w: Worker, h: nat, w': Worker)
    requires h < |w.conts| && Equipped(w.conts[h]) && TouchesTheRun(w.conts[h].pc) && ContainerStep(w, h) == Some(w')
    ensures w'.conts == w.conts || (|w'.conts| == |w.conts| && w'.conts == w.conts[h := w'.conts[h]])
    ensures w'.conts != w.conts ==> Equipped(w'.conts[h])
  {
    hide ContainerLocal, Equipped;
    if w'.conts != w.conts {
      LeftIsEquipped(w.conts[h], w'.conts[h]);
    }
  }

  lemma ContainerEquips(w: Worker, h: nat, w': Worker)
    requires AllEquipped(w) && h < |w.conts| && ContainerStep(w, h) == Some(w')
    ensures AllEquipped(w')
  {
    hide ContainerLocal, Equipped;
    var c := w.conts[h];
    if TouchesTheRun(c.pc) {
      hide ContainerStep;
      TouchEquips(w, h, w');
      if w'.conts != w.conts {
        ReplacedEquips(w, h, w'.conts[h], w');
      }
    } else {
      LocalEquips(c, ContainerLocal(c).value);
      ReplacedEquips(w, h, w'.conts[h], w');
    }
  }

  lemma SlaveLocalEquips(c: Container, c': Container)
    requires Equipped(c) && SlaveLocal(c) == Some(c')
    ensures Equipped(c')
  {
    hide FdFor;
  }

  lemma SlaveEquips(w: Worker, h: nat, w': Worker)
    requires AllEquipped(w) && h < |w.conts| && SlaveStep(w, h) == Some(w')
    ensures AllEquipped(w')
  {
    hide Equipped, SlaveLocal;
    var c := w.conts[h];
    if c.slave.pc == SArrive || c.slave.pc.SWait? {
      LeftIsEquipped(c, w'.conts[h]);
    } else {
      SlaveLocalEquips(c, SlaveLocal(c).value);
    }
    ReplacedEquips(w, h, w'.conts[h], w');
  }

  lemma ChosenAgrees(c: Container, h: nat, a: Action, c': Container)
    requires OpenAgrees(c.td) && Chooses(c, h, a, c')
    ensures OpenAgrees(c'.td)
  {
    hide WithUsage, FdFor;
  }

  lemma ChosenEquips(c: Container, h: nat, a: Action, c': Container)
    requires Equipped(c) && Chooses(c, h, a, c')
    ensures Equipped(c')
  {
    hide WithUsage, FdFor, OpenAgrees;
    assert OpenAgrees(c'.td) by { ChosenAgrees(c, h, a, c'); }
  }

  lemma NewIsEquipped(id: int, permanent: bool)
    ensures Equipped(NewContainer(id, permanent))
  {
  }

  lemma OtherEquips(w: Worker, a: Action, w': Worker)
    requires AllEquipped(w) && Step(w, a) == Some(w')
    requires a != WorkerMove && !a.ContainerMove? && !a.SlaveMove?
    ensures AllEquipped(w')
  {
    hide WorkerStep, ContainerStep, SlaveStep, Kill, Publish, OpenNext, AddPath, SlaveFails, SlaveEnds;
    hide Equipped, NewContainer;
    if a.Create? {
      NewIsEquipped(a.id, Eligible(w.tasks[|w.containers|]));
    } else if a != Die && !a.Accept? {
      var h := a.h;
      ChosenEquips(w.conts[h], h, a, w'.conts[h]);
      ReplacedEquips(w, h, w'.conts[h], w');
    }
  }

  lemma StepEquips(w: Worker, a: Action, w': Worker)
    requires Inv(w) && AllEquipped(w) && Step(w, a) == Some(w')
    ensures AllEquipped(w')
  {
    hide Shape, Staged, RunOk, AllEquipped, WorkerStep, ContainerStep, SlaveStep;
    match a
    case WorkerMove => WorkerEquips(w, w');
    case ContainerMove(h) => ContainerEquips(w, h, w');
    case SlaveMove(h) => SlaveEquips(w, h, w');
    case _ => OtherEquips(w, a, w');
  }

  lemma {:induction false} RunEquips(actions: seq<Action>, w: Worker)
    requires Run(INITIAL, actions) == Some(w)
    ensures AllEquipped(w)
  {
    hide Inv, Equipped, Step;
    if actions != [] {
      var front := actions[..|actions| - 1];
      var w1 := Run(INITIAL, front).value;
      RunEquips(front, w1);
      InvariantHolds(front, w1);
      StepEquips(w1, actions[|actions| - 1], w);
    }
  }

  lemma WorksFor(w: Worker, h: nat) returns (i: nat)
    requires Reachable(w) && h < |w.conts| && Alive(w.conts[h].slave) && w.conts[h].slave.pc.SExec?
    ensures i < |w.tasks| && i < |w.containers| && w.containers[i] == h
    ensures w.conts[h].td.param == w.tasks[i] && w.conts[h].slave.request == w.request
  {
    hide Shape, RunOk, JudgedIn;
    ReachableInv(w);
    WorkIsAssigned(w, h);
    i :| 0 <= i < |w.containers| && w.containers[i] == h;
    AliveMeansWorking(w.conts[h], StageAt(w.pc, i), ContextOf(w, i));
  }

  /** A running program is that of the task its container was given for this very
      request. By then its streams are what the task names: a file has been opened for
      one that names a file or nothing, a pipe is there from the right side, with the
      end among those the slave got at fork, and stderr is stdout for the alias. */
  lemma ProgramIsEquipped(w: Worker, h: nat, p: string)
    requires Reachable(w) && h < |w.conts| && Alive(w.conts[h].slave) && w.conts[h].slave.pc.SExec?
    ensures exists i :: 0 <= i < |w.tasks| && i < |w.containers| && w.containers[i] == h
                        && w.conts[h].slave.pc.loaded == w.tasks[i] && w.conts[h].td.param == w.tasks[i]
    ensures w.conts[h].slave.request == w.request
    ensures var t, o, fds := w.conts[h].slave.pc.loaded, w.conts[h].td.open, w.conts[h].slave.fds;
            && (o.stdin.OpenedAs? <==> t.stdin == "" || t.stdin[0] != '@')
            && (o.stdout.OpenedAs? <==> t.stdout == "" || t.stdout[0] != '@')
            && (o.stderr.OpenedAs? <==> t.stderr == "" || t.stderr[0] != '@')
            && (t.stdin == "@" + p ==> o.stdin == End(ReadEnd(p)) && ReadEnd(p) in fds)
            && (t.stdout == "@" + p ==> o.stdout == End(WriteEnd(p)) && WriteEnd(p) in fds)
            && (t.stderr == "@" + p && p != "_stdout" ==> o.stderr == End(WriteEnd(p)) && WriteEnd(p) in fds)
            && (t.stderr == "@_stdout" ==> o.stderr == SameAsStdout)
  {
    hide Inv, FdFor, Run;
    var actions :| Run(INITIAL, actions) == Some(w);
    RunEquips(actions, w);
    assert Equipped(w.conts[h]);
    var i := WorksFor(w, h);
    StartGate(w, h);
    var t := w.tasks[i];
    FdForMeans(t.stdin, false, false, p);
    FdForMeans(t.stdout, true, false, p);
    FdForMeans(t.stderr, true, true, p);
    if Names(t, p) {
      var s := w.conts[w.containers[i]].slave;
      assert ReadEnd(p) in s.fds && WriteEnd(p) in s.fds;
    }
  }
}
