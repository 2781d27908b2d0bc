/** The process-shared barrier of src/shared_barrier.cpp, with the behaviour of
    pthread_barrier_wait and pthread_barrier_destroy in IEEE Std 1003.1-2017. */
module Barriers {

  /** `arrived` are the participants that called wait in the current generation.
      A participant remembers the generation it arrived in as its ticket; it may
      return from wait once that generation is over. `gen` counts generations
      over the whole life of the memory, across resets. */
  datatype Barrier<P(==)> = Barrier(count: nat, arrived: set<P>, gen: nat) {

    /** The arrival half of wait: the last participant starts a new generation. */
    function Arrive(p: P): Barrier<P> {
      if |arrived + {p}| == count
      then Barrier(count, {}, gen + 1)
      else Barrier(count, arrived + {p}, gen)
    }

    predicate Released(ticket: nat) {
      ticket < gen
    }

    /** destroy followed by init. */
    function Reset(newCount: nat): Barrier<P> {
      Barrier(newCount, {}, gen)
    }
  }

  function Arrivals<P>(b: Barrier<P>, ps: seq<P>): Barrier<P> {
    if ps == [] then b else Arrivals(b, ps[..|ps| - 1]).Arrive(ps[|ps| - 1])
  }

  /** No participant calls wait again before its own generation is over. */
  predicate NoneTwice<P(==)>(b: Barrier<P>, ps: seq<P>) {
    ps == [] ||
    (NoneTwice(b, ps[..|ps| - 1]) && ps[|ps| - 1] !in Arrivals(b, ps[..|ps| - 1]).arrived)
  }

  /** The arrivals since generation `base` began: those of the generations that are
      over, and those waiting. */
  function Accounted<P>(b: Barrier<P>, base: nat): int {
    (b.gen - base) * b.count + |b.arrived|
  }

  lemma NothingAccounted<P>(b: Barrier<P>)
    requires b.arrived == {}
    ensures Accounted(b, b.gen) == 0
  {
  }

  lemma ArriveAccountsForOne<P>(e: Barrier<P>, p: P, base: nat)
    requires |e.arrived| < e.count && p !in e.arrived && base <= e.gen
    ensures var f := e.Arrive(p);
            && f.count == e.count && |f.arrived| < e.count && base <= f.gen
            && Accounted(f, base) == Accounted(e, base) + 1
  {
    assert |e.arrived + {p}| == |e.arrived| + 1;
    assert (e.gen + 1 - base) * e.count == (e.gen - base) * e.count + e.count;
  }

  /** Every generation takes exactly `count` arrivals: however the arrivals are
      interleaved, after k of them exactly k / count generations are over and
      k % count participants are waiting. */
  lemma {:induction false} GenerationsCountArrivals<P(!new)>(b: Barrier<P>, ps: seq<P>)
    requires b.count > 0 && b.arrived == {} && NoneTwice(b, ps)
    ensures var e := Arrivals(b, ps);
            && e.count == b.count && |e.arrived| < b.count && b.gen <= e.gen
            && Accounted(e, b.gen) == |ps|
  {
    hide Accounted, Barrier.Arrive;
    if ps == [] {
      NothingAccounted(b);
    } else {
      var last, front := ps[|ps| - 1], ps[..|ps| - 1];
      GenerationsCountArrivals(b, front);
      ArriveAccountsForOne(Arrivals(b, front), last, b.gen);
    }
  }

  /** The shared object itself. `waiting` is the only thing the real barrier
      knows about the participants; the two sets are what the protocol argument
      needs: who has arrived in this generation, and who has not yet returned. */
  class SharedBarrier<P(==,!new)> {
    var count: nat
    var waiting: nat
    var gen: nat
    ghost var arrived: set<P>
    ghost var inside: map<P, nat>

    ghost predicate Valid()
      reads this
    {
      && waiting == |arrived| < count
      && (forall p :: p in inside ==> inside[p] <= gen)
      && (forall p :: p in arrived <==> p in inside && inside[p] == gen)
    }

    ghost function Value(): Barrier<P>
      reads this
    {
      Barrier(count, arrived, gen)
    }

    constructor (count: nat)
      requires count > 0
      ensures Valid() && Value() == Barrier(count, {}, 0) && inside == map[]
    {
      this.count, waiting, gen := count, 0, 0;
      arrived, inside := {}, map[];
    }

    /** Calling wait: the participant is inside until it returns. */
    method Arrive(ghost p: P) returns (ticket: nat)
      requires Valid() && p !in inside
      modifies this
      ensures Valid() && Value() == old(Value().Arrive(p)) && ticket == old(gen)
      ensures inside == old(inside)[p := ticket]
    {
      ticket := gen;
      waiting := waiting + 1;
      assert |arrived + {p}| == |arrived| + 1;
      arrived, inside := arrived + {p}, inside[p := ticket];
      if waiting == count {
        waiting, gen := 0, gen + 1;
        arrived := {};
      }
    }

    /** Returning from wait, possible only after the generation is over. */
    method Return(ghost p: P, ticket: nat)
      requires Valid() && p in inside && inside[p] == ticket && Value().Released(ticket)
      modifies this`inside
      ensures Valid() && Value() == old(Value()) && inside == old(inside) - {p}
    {
      inside := inside - {p};
    }

    /** destroy then init. Destroying a barrier that anyone is still inside is
        undefined, so the caller owes an empty barrier. */
    method Reset(newCount: nat)
      requires Valid() && inside == map[] && newCount > 0
      modifies this
      ensures Valid() && Value() == old(Value()).Reset(newCount) && inside == map[]
    {
      count, waiting := newCount, 0;
      arrived := {};
    }
  }
}
