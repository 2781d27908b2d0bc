/** The checks that set_task makes before it copies a task's lists into the flat
    shared memory, src/container.cpp: they are what keeps every write inside its
    buffer. */
module SetTask {
  import opened TaskModel
  import opened CStrings
  import opened PlainContainers

  const ARGC_MAX: nat := 128
  const ARGV_MAX: nat := 4096
  const ENVC_MAX: nat := 128
  const ENV_MAX: nat := 4096
  const BINDS_MAX: nat := 10

  /** There is room in the vector for one more string. */
  predicate AddFits(ss: seq<string>, s: string, maxItems: nat, maxTotal: nat) {
    |ss| < maxItems && |Packed(ss)| + |s| + 1 <= maxTotal + maxItems
  }

  /** The two sums that set_task compares with the vector's limits. */
  predicate ListFits(ss: seq<string>, maxItems: nat, maxTotal: nat) {
    |ss| <= maxItems && TotalSize(ss) <= maxTotal
  }

  /** A list that passes the check can be added string by string. */
  lemma ListFitsMeansAddsFit(ss: seq<string>, maxItems: nat, maxTotal: nat, n: nat)
    requires ListFits(ss, maxItems, maxTotal) && n < |ss|
    ensures AddFits(ss[..n], ss[n], maxItems, maxTotal)
  {
    PackedSize(ss[..n]);
    TotalOfPrefix(ss, n);
    TotalOfPrefix(ss, n + 1);
  }

  /** False when the list is refused: the worker dies. */
  method FillStrings(v: PlainStringVector, ss: seq<string>) returns (ok: bool)
    requires v.Valid()
    modifies v, v.items, v.items.slots, v.data, v.data.data
    ensures v.Valid()
    ensures ok <==> ListFits(ss, v.maxItems, v.maxTotal)
    ensures v.strings == if ok then ss else old(v.strings)
    ensures ok ==> v.Decoded() == CPrefixes(ss)
    ensures ok ==> (v.Decoded() == ss <==> AllNulFree(ss))
  {
    if |ss| > v.maxItems {
      return false;
    }
    var total := 0;
    for i := 0 to |ss|
      modifies {}
      invariant total == TotalSize(ss[..i])
    {
      TotalOfPrefix(ss, i);
      total := total + |ss[i]|;
    }
    assert ss[..|ss|] == ss;
    if total > v.maxTotal {
      return false;
    }
    v.Clear();
    for i := 0 to |ss|
      invariant v.Valid() && v.strings == ss[..i]
    {
      ListFitsMeansAddsFit(ss, v.maxItems, v.maxTotal, i);
      v.Add(ss[i]);
      assert ss[..i] + [ss[i]] == ss[..i + 1];
    }
    v.TableDecodes();
    return true;
  }

  predicate BindFits(b: BindRule) {
    |b.inside| <= 4096 && |b.outside| <= 4096
  }

  method FillBinds(v: PlainVector<BindRule>, binds: seq<BindRule>) returns (ok: bool)
    requires v.Valid()
    modifies v, v.slots
    ensures v.Valid()
    ensures ok <==> |binds| <= v.slots.Length && forall i :: 0 <= i < |binds| ==> BindFits(binds[i])
    ensures ok ==> v.Items() == binds
  {
    if |binds| > v.slots.Length {
      return false;
    }
    v.Clear();
    for i := 0 to |binds|
      invariant v.Valid() && v.Items() == binds[..i]
      invariant forall k :: 0 <= k < i ==> BindFits(binds[k])
    {
      assert |v.Items()| == v.size;
      if |binds[i].inside| > PATH_MAX || |binds[i].outside| > PATH_MAX {
        assert !BindFits(binds[i]);
        return false;
      }
      var _ := v.EmplaceBack(binds[i]);
      assert binds[..i] + [binds[i]] == binds[..i + 1];
    }
    assert binds[..|binds|] == binds;
    return true;
  }

  /** The lists of a task that set_task accepts. */
  predicate Admitted(t: Task) {
    && |t.argv| <= 128 && TotalSize(t.argv) <= 4096
    && |t.env| <= 129 && TotalSize(t.env) <= 5120
    && |t.binds| <= 10 && forall i :: 0 <= i < |t.binds| ==> BindFits(t.binds[i])
  }

  /** The lists of a container's shared memory, see src/task_data.h. */
  class TaskLists {
    const argv: PlainStringVector
    const env: PlainStringVector
    const binds: PlainVector<BindRule>

    ghost function Memory(): set<object> {
      argv.Cells() + env.Cells() + {binds, binds.slots}
    }

    ghost predicate Valid()
      reads Memory()
    {
      && argv.Cells() !! env.Cells() && argv.Cells() !! {binds, binds.slots} && env.Cells() !! {binds, binds.slots}
      && argv.Valid() && env.Valid() && binds.Valid()
      && argv.maxItems == ARGC_MAX && argv.maxTotal == ARGV_MAX
      && env.maxItems == ENVC_MAX + 1 && env.maxTotal == ENV_MAX + 1024
      && binds.slots.Length == BINDS_MAX
    }

    constructor ()
      ensures Valid() && fresh(Memory())
    {
      hide PlainStringVector.Valid;
      argv := new PlainStringVector(ARGC_MAX, ARGV_MAX);
      env := new PlainStringVector(ENVC_MAX + 1, ENV_MAX + 1024);
      binds := new PlainVector(BINDS_MAX);
    }

    /** Whatever task was here before, an admitted one replaces it completely. */
    method SetLists(t: Task) returns (ok: bool)
      requires Valid()
      modifies Memory()
      ensures Valid()
      ensures ok <==> Admitted(t)
      ensures ok ==>
                && argv.Decoded() == CPrefixes(t.argv) && env.Decoded() == CPrefixes(t.env)
                && binds.Items() == t.binds
      ensures ok && AllNulFree(t.argv) && AllNulFree(t.env) ==> argv.Decoded() == t.argv && env.Decoded() == t.env
    {
      hide BindFits, NulFree, AllNulFree, CPrefixes, TotalSize;
      ok := FillStrings(argv, t.argv);
      if ok {
        ok := FillStrings(env, t.env);
      }
      if ok {
        ok := FillBinds(binds, t.binds);
      }
    }
  }

  /** The entry the slave adds to an admitted environment later fits exactly if the
      caller kept to the documented number of entries and left room for it: the
      check in set_task alone does not see to that. */
  lemma ExtraEntryFitsIff(env: seq<string>, extra: string)
    requires |env| <= 129 && TotalSize(env) <= 5120
    ensures AddFits(env, extra, ENVC_MAX + 1, ENV_MAX + 1024) <==>
              |env| <= 128 && TotalSize(env) + |env| + |extra| <= 5248
  {
    PackedSize(env);
  }

  lemma {:induction false} EmptiesHaveNoSize(n: nat)
    ensures TotalSize(seq(n, _ => "")) == 0
  {
    if n > 0 {
      assert seq(n, _ => "")[..n - 1] == seq(n - 1, _ => "");
      EmptiesHaveNoSize(n - 1);
    }
  }

  /** It does happen: set_task admits 129 empty entries, and then nothing fits. */
  lemma AdmittedWithoutRoom(extra: string)
    ensures var env := seq(129, _ => "");
            ListFits(env, ENVC_MAX + 1, ENV_MAX + 1024) && !AddFits(env, extra, ENVC_MAX + 1, ENV_MAX + 1024)
  {
    EmptiesHaveNoSize(129);
  }

  /** An environment within the documented limits leaves room for an entry of up to
      1024 characters, which is what the larger buffer is for. */
  lemma DocumentedLimitsLeaveRoom(env: seq<string>, extra: string)
    requires |env| <= 128 && TotalSize(env) <= 4096 && |extra| <= 1024
    ensures ListFits(env, ENVC_MAX + 1, ENV_MAX + 1024) && AddFits(env, extra, ENVC_MAX + 1, ENV_MAX + 1024)
  {
    PackedSize(env);
  }
}
