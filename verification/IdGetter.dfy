/** The pool of user ids shared by all workers, src/shared_id_getter.cpp: the
    object itself, and why its methods are atomic although they are not. */
module IdGetter {
  import opened TaskModel

  /** All ids of the segment [start, start + count - 1], the lowest on top. */
  function AllIds(start: int, count: nat): seq<int> {
    seq(count, i => start + count - 1 - i)
  }

  /** An array and the number of its slots in use. */
  class SharedIdGetter {
    const ids: array<int>
    var head: nat

    ghost predicate Valid()
      reads this
    {
      head <= ids.Length
    }

    /** The free ids, the top of the stack last. */
    ghost function Free(): seq<int>
      requires Valid()
      reads this, ids
    {
      ids[..head]
    }

    constructor (start: int, count: nat)
      ensures Valid() && fresh(ids) && ids.Length == count && Free() == AllIds(start, count)
      ensures forall k :: 0 <= k < count ==> Free()[k] == start + count - 1 - k
    {
      ids := new int[count];
      head := count;
      new;
      for i := 0 to count
        invariant head == count == ids.Length && fresh(ids)
        invariant forall k :: 0 <= k < i ==> ids[k] == start + count - 1 - k
      {
        ids[i] := start + count - 1 - i;
      }
    }

    /** None when the stack is empty: the caller dies. */
    method Get() returns (id: Option<int>)
      requires Valid()
      modifies this
      ensures Valid()
      ensures id.None? <==> old(Free()) == []
      ensures id.None? ==> Free() == old(Free())
      ensures id.Some? ==> old(Free()) == Free() + [id.value]
    {
      if head == 0 {
        return None;
      }
      head := head - 1;
      return Some(ids[head]);
    }

    /** False when the stack is full: the caller dies. */
    method Put(id: int) returns (ok: bool)
      requires Valid()
      modifies this, ids
      ensures Valid() && (ok <==> |old(Free())| < ids.Length)
      ensures Free() == if ok then old(Free()) + [id] else old(Free())
    {
      if head == ids.Length {
        return false;
      }
      ids[head] := id;
      head := head + 1;
      return true;
    }
  }

  /** What k successive calls of get return. */
  function Gets(stack: seq<int>, k: nat): seq<int>
    requires k <= |stack|
  {
    if k == 0 then [] else [stack[|stack| - 1]] + Gets(stack[..|stack| - 1], k - 1)
  }

  lemma AllIdsSplit(start: int, count: nat)
    requires count > 0
    ensures AllIds(start, count) == AllIds(start + 1, count - 1) + [start]
  {
  }

  function Ascending(start: int, count: nat): seq<int> {
    seq(count, i => start + i)
  }

  lemma AscendingSplit(start: int, count: nat)
    requires count > 0
    ensures Ascending(start, count) == [start] + Ascending(start + 1, count - 1)
  {
  }

  /** A fresh getter hands out start, start + 1, start + 2, ... */
  lemma {:induction false} FreshGetsAscend(start: int, count: nat, k: nat)
    requires k <= count
    ensures |AllIds(start, count)| == count && Gets(AllIds(start, count), k) == Ascending(start, k)
    decreases k
  {
    if k > 0 {
      AllIdsSplit(start, count);
      AscendingSplit(start, k);
      FreshGetsAscend(start + 1, count - 1, k - 1);
      hide AllIds, Ascending;
      var rest := AllIds(start + 1, count - 1);
      assert (rest + [start])[..|rest|] == rest;
    }
  }

  // ------------------------------------------------ many processes at once

  datatype Op = Get | Put(id: int)

  /** A call that has taken effect, by which process and with which id. */
  datatype Event = Got(t: nat, id: int) | GotNone(t: nat) | Gave(t: nat, id: int) | GaveNone(t: nat)

  /** Where a process is in get or put, one place for each access to the shared
      memory. `Read` and `Inc` remember the value they have to meet. */
  datatype Pc =
    | Out | Enter(op: Op) | Check(op: Op)
    | Dec | Read(popped: int)
    | Write(id: int) | Inc(id: int)
    | Leave(event: Event) | Died

  /** `owner` holds the mutex. `log` records the calls in the order they take
      effect, `calls` in the order they return, with what they return. */
  datatype Memory = Memory(
    ids: seq<int>, head: nat, owner: Option<nat>, threads: seq<Pc>, log: seq<Event>, calls: seq<Event>)

  datatype Move = Call(t: nat, op: Op) | Step(t: nat)

  function To(m: Memory, t: nat, pc: Pc): Memory
    requires t < |m.threads|
  {
    m.(threads := m.threads[t := pc])
  }

  function Next(m: Memory, move: Move): Option<Memory> {
    if move.t >= |m.threads| then None
    else
      var t := move.t;
      match move
      case Call(_, op) => if m.threads[t] == Out then Some(To(m, t, Enter(op))) else None
      case Step(_) =>
        match m.threads[t]
        case Out => None
        case Enter(op) => if m.owner == None then Some(To(m, t, Check(op)).(owner := Some(t))) else None
        case Check(Get) =>
          if m.head == 0 then Some(To(m, t, Died).(log := m.log + [GotNone(t)])) else Some(To(m, t, Dec))
        case Check(Put(id)) =>
          if m.head == |m.ids| then Some(To(m, t, Died).(log := m.log + [GaveNone(t)])) else Some(To(m, t, Write(id)))
        case Dec =>
          if 0 < m.head <= |m.ids| then
            var popped := m.ids[m.head - 1];
            Some(To(m, t, Read(popped)).(head := m.head - 1, log := m.log + [Got(t, popped)]))
          else None
        case Read(_) => if m.head < |m.ids| then Some(To(m, t, Leave(Got(t, m.ids[m.head])))) else None
        case Write(id) => if m.head < |m.ids| then Some(To(m, t, Inc(id)).(ids := m.ids[m.head := id])) else None
        case Inc(id) => Some(To(m, t, Leave(Gave(t, id))).(head := m.head + 1, log := m.log + [Gave(t, id)]))
        case Leave(event) => Some(To(m, t, Out).(owner := None, calls := m.calls + [event]))
        case Died => None
  }

  function RunMoves(m: Memory, moves: seq<Move>): Option<Memory> {
    if moves == [] then Some(m)
    else
      var front := RunMoves(m, moves[..|moves| - 1]);
      if front.None? then None else Next(front.value, moves[|moves| - 1])
  }

  /** The atomic stack: what a sequence of calls does to it, if each of them
      returns what an atomic call would. */
  function Replay(stack: seq<int>, capacity: nat, log: seq<Event>): Option<seq<int>> {
    if log == [] then Some(stack)
    else
      match Replay(stack, capacity, log[..|log| - 1])
      case None => None
      case Some(s) =>
        match log[|log| - 1]
        case Got(_, id) => if s != [] && s[|s| - 1] == id then Some(s[..|s| - 1]) else None
        case GotNone(_) => if s == [] then Some(s) else None
        case Gave(_, id) => if |s| < capacity then Some(s + [id]) else None
        case GaveNone(_) => if |s| >= capacity then Some(s) else None
  }

  predicate Inside(pc: Pc) {
    pc != Out && !pc.Enter?
  }

  /** What a process inside the critical section may rely on. */
  predicate PcOk(m: Memory, pc: Pc) {
    match pc
    case Dec => m.head > 0
    case Read(popped) => m.head < |m.ids| && m.ids[m.head] == popped
    case Write(_) => m.head < |m.ids|
    case Inc(id) => m.head < |m.ids| && m.ids[m.head] == id
    case _ => true
  }

  /** The call that has taken effect but has not returned. */
  predicate PendingOk(m: Memory) {
    match m.owner
    case None => m.log == m.calls
    case Some(t) =>
      t < |m.threads| &&
      match m.threads[t]
      case Read(popped) => m.log == m.calls + [Got(t, popped)]
      case Leave(event) => m.log == m.calls + [event]
      case Died => m.calls <= m.log && |m.log| == |m.calls| + 1
      case _ => m.log == m.calls
  }

  /** Only the owner of the mutex is inside, and it finds what it relies on. */
  predicate ThreadsOk(m: Memory) {
    && m.head <= |m.ids|
    && (forall t :: 0 <= t < |m.threads| ==> (Inside(m.threads[t]) <==> m.owner == Some(t)))
    && (forall t :: 0 <= t < |m.threads| && Inside(m.threads[t]) ==> PcOk(m, m.threads[t]))
  }

  predicate MemoryOk(m: Memory, stack: seq<int>) {
    ThreadsOk(m) && PendingOk(m) && Replay(stack, |m.ids|, m.log) == Some(m.ids[..m.head])
  }

  lemma ReplayOneMore(stack: seq<int>, capacity: nat, log: seq<Event>, e: Event)
    ensures Replay(stack, capacity, log + [e]) ==
            match Replay(stack, capacity, log)
            case None => None
            case Some(s) =>
              match e
              case Got(_, id) => if s != [] && s[|s| - 1] == id then Some(s[..|s| - 1]) else None
              case GotNone(_) => if s == [] then Some(s) else None
              case Gave(_, id) => if |s| < capacity then Some(s + [id]) else None
              case GaveNone(_) => if |s| >= capacity then Some(s) else None
  {
    assert (log + [e])[..|log|] == log;
  }

  lemma MoveKeepsPending(m: Memory, move: Move, m': Memory)
    requires ThreadsOk(m) && PendingOk(m) && Next(m, move) == Some(m')
    ensures PendingOk(m')
  {
    assert Inside(m.threads[move.t]) <==> m.owner == Some(move.t);
  }

  lemma MoveKeepsThreads(m: Memory, move: Move, m': Memory)
    requires ThreadsOk(m) && Next(m, move) == Some(m')
    ensures ThreadsOk(m') && |m'.ids| == |m.ids|
  {
    forall u | 0 <= u < |m'.threads| ensures Inside(m'.threads[u]) <==> m'.owner == Some(u) {
      assert Inside(m.threads[u]) <==> m.owner == Some(u);
    }
  }

  /** The memory always holds the stack that the logged calls have built. */
  lemma MoveKeepsStack(m: Memory, stack: seq<int>, move: Move, m': Memory)
    requires MemoryOk(m, stack) && Next(m, move) == Some(m') && m'.head <= |m'.ids|
    ensures Replay(stack, |m'.ids|, m'.log) == Some(m'.ids[..m'.head])
  {
    hide PendingOk, Replay;
    if move.Step? {
      assert Inside(m.threads[move.t]) ==> PcOk(m, m.threads[move.t]);
      var s := m.ids[..m.head];
      match m.threads[move.t]
      case Check(Get) => ReplayOneMore(stack, |m.ids|, m.log, GotNone(move.t));
      case Check(Put(_)) => ReplayOneMore(stack, |m.ids|, m.log, GaveNone(move.t));
      case Dec =>
        ReplayOneMore(stack, |m.ids|, m.log, Got(move.t, m.ids[m.head - 1]));
        assert s[..|s| - 1] == m'.ids[..m'.head];
      case Write(id) => assert m'.ids[..m'.head] == s;
      case Inc(id) =>
        ReplayOneMore(stack, |m.ids|, m.log, Gave(move.t, id));
        assert s + [id] == m'.ids[..m'.head];
      case _ =>
    }
  }

  lemma MoveKeepsMemory(m: Memory, stack: seq<int>, move: Move, m': Memory)
    requires MemoryOk(m, stack) && Next(m, move) == Some(m')
    ensures MemoryOk(m', stack) && |m'.ids| == |m.ids|
  {
    hide Next, Replay, PendingOk;
    MoveKeepsPending(m, move, m');
    MoveKeepsThreads(m, move, m');
    MoveKeepsStack(m, stack, move, m');
  }

  lemma {:induction false} MemoryIsOk(m: Memory, stack: seq<int>, moves: seq<Move>, m': Memory)
    requires MemoryOk(m, stack) && RunMoves(m, moves) == Some(m')
    ensures MemoryOk(m', stack) && |m'.ids| == |m.ids|
  {
    hide MemoryOk;
    if moves != [] {
      var m0 := RunMoves(m, moves[..|moves| - 1]).value;
      MemoryIsOk(m, stack, moves[..|moves| - 1], m0);
      MoveKeepsMemory(m0, stack, moves[|moves| - 1], m');
    }
  }

  /** However the accesses of any number of processes interleave, the calls that
      have returned, with the ids they returned and in the order they did, are what
      an atomic stack would have done, and the memory holds that stack. A call that
      fails keeps the mutex: nobody else gets or puts an id any more. */
  lemma GetAndPutAreAtomic(start: int, count: nat, processes: nat, moves: seq<Move>, m: Memory)
    requires RunMoves(Memory(AllIds(start, count), count, None, seq(processes, _ => Out), [], []), moves) == Some(m)
    ensures m.head <= |m.ids| && Replay(AllIds(start, count), count, m.log) == Some(m.ids[..m.head])
    ensures m.calls <= m.log && |m.log| <= |m.calls| + 1
    ensures m.owner == None ==> m.calls == m.log
    ensures forall t, u :: 0 <= t < |m.threads| && 0 <= u < |m.threads| ==>
              Inside(m.threads[t]) && Inside(m.threads[u]) ==> t == u
  {
    hide RunMoves;
    var m0 := Memory(AllIds(start, count), count, None, seq(processes, _ => Out), [], []);
    assert m0.ids[..count] == m0.ids;
    MemoryIsOk(m0, AllIds(start, count), moves, m);
  }
}
