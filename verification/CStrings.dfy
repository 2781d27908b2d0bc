/** Strings in memory that end at a NUL, and lists of them packed one behind the
    other in an arena with a table of pointers that ends in null. */
module CStrings {
  import opened TaskModel

  const NUL := '\0'

  predicate NulFree(s: string) {
    NUL !in s
  }

  predicate AllNulFree(ss: seq<string>) {
    forall i :: 0 <= i < |ss| ==> NulFree(ss[i])
  }

  /** What a C function makes of a std::string: the part before the first NUL. */
  function CPrefix(s: string): string {
    if s == [] || s[0] == NUL then [] else [s[0]] + CPrefix(s[1..])
  }

  function CPrefixes(ss: seq<string>): seq<string> {
    if ss == [] then [] else CPrefixes(ss[..|ss| - 1]) + [CPrefix(ss[|ss| - 1])]
  }

  lemma {:induction false} CPrefixIsWholeIff(s: string)
    ensures CPrefix(s) == s <==> NulFree(s)
    ensures CPrefix(s) <= s && NulFree(CPrefix(s))
    ensures CPrefix(s) != s ==> s[|CPrefix(s)|] == '\0'
  {
    if s != [] {
      CPrefixIsWholeIff(s[1..]);
      assert s == [s[0]] + s[1..];
    }
  }

  lemma {:induction false} CPrefixesAreWholeIff(ss: seq<string>)
    ensures |CPrefixes(ss)| == |ss|
    ensures forall i :: 0 <= i < |ss| ==> CPrefixes(ss)[i] == CPrefix(ss[i])
    ensures CPrefixes(ss) == ss <==> AllNulFree(ss)
  {
    if ss != [] {
      var front, last := ss[..|ss| - 1], ss[|ss| - 1];
      CPrefixesAreWholeIff(front);
      CPrefixIsWholeIff(last);
      assert ss == front + [last];
      assert CPrefixes(ss) == ss ==> CPrefixes(ss)[..|front|] == front && CPrefixes(ss)[|front|] == last;
      assert AllNulFree(ss) <==> AllNulFree(front) && NulFree(last);
    }
  }

  /** The C string that starts at an offset of a buffer. */
  function StringAt(buffer: seq<char>, offset: nat): string
    decreases |buffer| - offset
  {
    if offset >= |buffer| || buffer[offset] == NUL then [] else [buffer[offset]] + StringAt(buffer, offset + 1)
  }

  lemma {:induction false} StringAtTerminator(buffer: seq<char>, offset: nat, s: string)
    requires offset + |s| < |buffer| && buffer[offset..offset + |s|] == s && buffer[offset + |s|] == NUL
    ensures StringAt(buffer, offset) == CPrefix(s)
    decreases |s|
  {
    if s != [] {
      assert buffer[offset] == s[0];
      assert buffer[offset + 1..offset + |s|] == s[1..];
      if s[0] != NUL {
        StringAtTerminator(buffer, offset + 1, s[1..]);
      }
    }
  }

  // ------------------------------------------------------- the packed arena

  function Packed(ss: seq<string>): seq<char> {
    if ss == [] then [] else Packed(ss[..|ss| - 1]) + ss[|ss| - 1] + [NUL]
  }

  function Pointers(ss: seq<string>): seq<Option<nat>> {
    if ss == [] then [] else Pointers(ss[..|ss| - 1]) + [Some(|Packed(ss[..|ss| - 1])|)]
  }

  function TotalSize(ss: seq<string>): nat {
    if ss == [] then 0 else TotalSize(ss[..|ss| - 1]) + |ss[|ss| - 1]|
  }

  lemma {:induction false} PackedSize(ss: seq<string>)
    ensures |Packed(ss)| == TotalSize(ss) + |ss|
    ensures |Pointers(ss)| == |ss|
  {
    if ss != [] {
      PackedSize(ss[..|ss| - 1]);
    }
  }

  lemma {:induction false} TotalOfPrefix(ss: seq<string>, n: nat)
    requires n <= |ss|
    ensures TotalSize(ss[..n]) <= TotalSize(ss)
    ensures n < |ss| ==> TotalSize(ss[..n]) + |ss[n]| == TotalSize(ss[..n + 1])
    decreases |ss| - n
  {
    if n < |ss| {
      assert ss[..n + 1][..n] == ss[..n];
      TotalOfPrefix(ss, n + 1);
    } else {
      assert ss[..n] == ss;
    }
  }

  lemma PackedOneMore(ss: seq<string>, s: string)
    ensures Packed(ss + [s]) == Packed(ss) + s + [NUL]
    ensures Pointers(ss + [s]) == Pointers(ss) + [Some(|Packed(ss)|)]
    ensures TotalSize(ss + [s]) == TotalSize(ss) + |s|
    ensures CPrefixes(ss + [s]) == CPrefixes(ss) + [CPrefix(s)]
  {
    assert (ss + [s])[..|ss|] == ss;
  }

  /** Reading the table as a C array of strings: follow each pointer until null. */
  function Decode(table: seq<Option<nat>>, buffer: seq<char>): seq<string> {
    if table == [] || table[0].None? then [] else [StringAt(buffer, table[0].value)] + Decode(table[1..], buffer)
  }

  lemma {:induction false} DecodeConcat(front: seq<Option<nat>>, back: seq<Option<nat>>, buffer: seq<char>)
    requires forall i :: 0 <= i < |front| ==> front[i].Some?
    ensures Decode(front + back, buffer) == Decode(front, buffer) + Decode(back, buffer)
  {
    if front == [] {
      assert front + back == back;
    } else {
      assert (front + back)[1..] == front[1..] + back;
      DecodeConcat(front[1..], back, buffer);
    }
  }

  lemma {:induction false} PointersDecode(ss: seq<string>, buffer: seq<char>)
    requires Packed(ss) <= buffer
    ensures forall i :: 0 <= i < |Pointers(ss)| ==> Pointers(ss)[i].Some?
    ensures Decode(Pointers(ss), buffer) == CPrefixes(ss)
  {
    if ss != [] {
      var front, last := ss[..|ss| - 1], ss[|ss| - 1];
      var at := |Packed(front)|;
      assert Packed(front) <= buffer;
      PointersDecode(front, buffer);
      assert buffer[at..at + |last|] == last && buffer[at + |last|] == NUL by {
        assert Packed(ss)[at..at + |last|] == last && Packed(ss)[at + |last|] == NUL;
        assert buffer[..|Packed(ss)|] == Packed(ss);
        assert buffer[at..at + |last|] == buffer[..|Packed(ss)|][at..at + |last|];
      }
      StringAtTerminator(buffer, at, last);
      DecodeConcat(Pointers(front), [Some(at)], buffer);
      assert Decode([Some(at)], buffer) == [StringAt(buffer, at)] + Decode([], buffer);
    }
  }

  /** The round trip: the pointer table of packed strings, read until null, gives
      back each string up to its first NUL, in order, whatever follows in the
      buffer; and exactly if no string contains a NUL, the strings themselves. */
  lemma DecodeRoundTrip(ss: seq<string>, buffer: seq<char>)
    requires Packed(ss) <= buffer
    ensures Decode(Pointers(ss) + [None], buffer) == CPrefixes(ss)
    ensures Decode(Pointers(ss) + [None], buffer) == ss <==> AllNulFree(ss)
  {
    PointersDecode(ss, buffer);
    DecodeConcat(Pointers(ss), [None], buffer);
    CPrefixesAreWholeIff(ss);
  }
}
