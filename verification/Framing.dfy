/** How a message crosses the socket: the recv loops of Worker::serve
    (src/worker.cpp:94-113) and of run_together (src/libsbox.cpp:528-540). Both
    append the buffer as a C string; only the worker's stops at a NUL. */
module Framing {
  import opened TaskModel
  import opened CStrings

  const BUFFER_SIZE: nat := 1024

  /** What the calls of recv() may deliver: each time at least one byte, and one less
      than the buffer holds, for the terminator. */
  predicate Chunked(chunks: seq<string>) {
    forall i :: 0 <= i < |chunks| ==> 1 <= |chunks[i]| <= 1023
  }

  function Concat(chunks: seq<string>): string {
    if chunks == [] then "" else Concat(chunks[..|chunks| - 1]) + chunks[|chunks| - 1]
  }

  /** All chunks as C strings, appended: what the client's loop makes of them. */
  function Appended(chunks: seq<string>): string {
    if chunks == [] then "" else Appended(chunks[..|chunks| - 1]) + CPrefix(chunks[|chunks| - 1])
  }

  lemma {:induction false} ConcatAppend(a: seq<string>, b: seq<string>)
    ensures Concat(a + b) == Concat(a) + Concat(b)
  {
    if b == [] {
      assert a + b == a;
    } else {
      assert (a + b)[..|a + b| - 1] == a + b[..|b| - 1];
      ConcatAppend(a, b[..|b| - 1]);
    }
  }

  lemma {:induction false} AppendedAppend(a: seq<string>, b: seq<string>)
    ensures Appended(a + b) == Appended(a) + Appended(b)
  {
    hide CPrefix;
    if b == [] {
      assert a + b == a;
    } else {
      assert (a + b)[..|a + b| - 1] == a + b[..|b| - 1];
      AppendedAppend(a, b[..|b| - 1]);
    }
  }

  lemma CPrefixStep(c: char, s: string)
    ensures CPrefix([c] + s) == if c == NUL then [] else [c] + CPrefix(s)
    ensures NulFree([c] + s) <==> c != NUL && NulFree(s)
  {
    assert ([c] + s)[1..] == s;
  }

  lemma NulFreeNothing()
    ensures NulFree([])
  {
  }

  lemma {:induction false} CPrefixOfConcat(a: string, b: string)
    ensures CPrefix(a + b) == if NulFree(a) then a + CPrefix(b) else CPrefix(a)
  {
    hide CPrefix, NulFree;
    if a == [] {
      assert a + b == b;
      NulFreeNothing();
    } else {
      var c, s := a[0], a[1..];
      assert a == [c] + s;
      assert a + b == [c] + (s + b);
      CPrefixStep(c, s);
      CPrefixStep(c, s + b);
      CPrefixOfConcat(s, b);
    }
  }

  lemma Push(chunks: seq<string>, chunk: string)
    ensures Concat(chunks + [chunk]) == Concat(chunks) + chunk
    ensures Appended(chunks + [chunk]) == Appended(chunks) + CPrefix(chunk)
  {
    assert (chunks + [chunk])[..|chunks|] == chunks;
  }

  lemma ConcatUpTo(chunks: seq<string>, k: nat)
    requires k < |chunks|
    ensures Concat(chunks[..k + 1]) == Concat(chunks[..k]) + chunks[k]
  {
    assert chunks[..k + 1] == chunks[..k] + [chunks[k]];
    Push(chunks[..k], chunks[k]);
  }

  lemma ConcatAround(chunks: seq<string>, k: nat)
    requires k <= |chunks|
    ensures Concat(chunks) == Concat(chunks[..k]) + Concat(chunks[k..])
  {
    assert chunks == chunks[..k] + chunks[k..];
    ConcatAppend(chunks[..k], chunks[k..]);
  }

  /** One more chunk after a NUL-free beginning. */
  lemma NextChunk(chunks: seq<string>, k: nat)
    requires k < |chunks| && NulFree(Concat(chunks[..k]))
    ensures Concat(chunks[..k + 1]) == Concat(chunks[..k]) + chunks[k]
    ensures !NulFree(chunks[k]) ==>
              !NulFree(Concat(chunks)) && CPrefix(Concat(chunks)) == Concat(chunks[..k]) + CPrefix(chunks[k])
  {
    hide Concat, Appended, CPrefix;
    ConcatUpTo(chunks, k);
    ConcatAround(chunks, k + 1);
    CPrefixOfConcat(Concat(chunks[..k]), chunks[k]);
    CPrefixOfConcat(Concat(chunks[..k + 1]), Concat(chunks[k + 1..]));
  }

  // ------------------------------------------------------------- the loops

  /** recv() into a buffer whose other bytes are left over from before, then the
      terminator: what the buffer reads as is the chunk up to its first NUL. */
  method Fill(buf: array<char>, chunk: string)
    requires buf.Length == BUFFER_SIZE && |chunk| < BUFFER_SIZE
    modifies buf
    ensures StringAt(buf[..], 0) == CPrefix(chunk)
  {
    for i := 0 to |chunk|
      invariant buf[..i] == chunk[..i]
    {
      buf[i] := chunk[i];
    }
    buf[|chunk|] := NUL;
    assert buf[..][0..|chunk|] == chunk;
    StringAtTerminator(buf[..], 0, chunk);
  }

  /** The worker's loop. `fails` says whether the recv() after the last chunk reports
      a failure rather than end-of-file. Of the stream it takes what precedes the
      first NUL, however the stream is cut; it calls recv() again after a chunk
      exactly as long as no NUL has come; and it fails only if none ever comes. */
  method ReceiveRequest(chunks: seq<string>, fails: bool) returns (request: Option<string>, calls: nat)
    requires Chunked(chunks)
    ensures request == if fails && NulFree(Concat(chunks)) then None else Some(CPrefix(Concat(chunks)))
    ensures NulFree(Concat(chunks)) ==> calls == |chunks| + 1
    ensures !NulFree(Concat(chunks)) ==>
              1 <= calls <= |chunks| && NulFree(Concat(chunks[..calls - 1])) && !NulFree(Concat(chunks[..calls]))
  {
    var buf := new char[BUFFER_SIZE];
    var text := "";
    calls := 0;
    while true
      invariant 0 <= calls <= |chunks| && text == Concat(chunks[..calls]) && NulFree(text)
      decreases |chunks| - calls
    {
      calls := calls + 1;
      if calls > |chunks| {
        assert chunks[..|chunks|] == chunks;
        CPrefixIsWholeIff(text);
        return if fails then None else Some(text), calls;
      }
      var chunk := chunks[calls - 1];
      NextChunk(chunks, calls - 1);
      CPrefixIsWholeIff(chunk);
      Fill(buf, chunk);
      var s := StringAt(buf[..], 0);
      text := text + s;
      if |s| < |chunk| {
        return Some(text), calls;
      }
    }
  }

  /** The client's loop reads to the end and stops at nothing. */
  method ReceiveResponse(chunks: seq<string>, fails: bool) returns (response: Option<string>)
    requires Chunked(chunks)
    ensures response == if fails then None else Some(Appended(chunks))
  {
    var buf := new char[BUFFER_SIZE];
    var text := "";
    for i := 0 to |chunks|
      invariant text == Appended(chunks[..i])
    {
      Fill(buf, chunks[i]);
      assert chunks[..i + 1][..i] == chunks[..i];
      text := text + StringAt(buf[..], 0);
    }
    assert chunks[..|chunks|] == chunks;
    return if fails then None else Some(text);
  }

  // ------------------------------------------------- what survives the framing

  /** run_together sends its message and a NUL: the worker takes the message as it
      was, whatever follows, exactly if the message has no NUL in it. */
  lemma RequestSurvivesIff(message: string, chunks: seq<string>, rest: string)
    requires Concat(chunks) == message + [NUL] + rest
    ensures CPrefix(Concat(chunks)) == message <==> NulFree(message)
  {
    assert Concat(chunks) == message + ([NUL] + rest);
    CPrefixOfConcat(message, [NUL] + rest);
    CPrefixIsWholeIff(message);
  }

  /** The client takes the response as it was sent exactly if it has no NUL in it. */
  lemma {:induction false} ResponseSurvivesIff(chunks: seq<string>)
    ensures |Appended(chunks)| <= |Concat(chunks)|
    ensures Appended(chunks) == Concat(chunks) <==> NulFree(Concat(chunks))
  {
    if chunks != [] {
      var front, last := chunks[..|chunks| - 1], chunks[|chunks| - 1];
      ResponseSurvivesIff(front);
      CPrefixIsWholeIff(last);
      if Appended(chunks) == Concat(chunks) {
        assert |Appended(front)| == |Concat(front)| && |CPrefix(last)| == |last|;
        assert Concat(chunks)[..|Concat(front)|] == Concat(front);
        assert Appended(chunks)[..|Concat(front)|] == Appended(front);
        assert Concat(chunks)[|Concat(front)|..] == last;
        assert Appended(chunks)[|Concat(front)|..] == CPrefix(last);
      }
    }
  }

  ghost predicate CutsOf(stream: string, chunks: seq<string>) {
    Chunked(chunks) && Concat(chunks) == stream
  }

  /** Once there is a NUL, only NULs follow. */
  predicate NulsAtEnd(s: string) {
    forall i :: 0 <= i < |s| - 1 && s[i] == NUL ==> s[i + 1] == NUL
  }

  lemma {:induction false} AppendedNulsAtEnd(chunks: seq<string>)
    requires NulsAtEnd(Concat(chunks))
    ensures Appended(chunks) == CPrefix(Concat(chunks))
  {
    if chunks != [] {
      var front, last := chunks[..|chunks| - 1], chunks[|chunks| - 1];
      var s, cut := Concat(chunks), |Concat(front)|;
      assert s[..cut] == Concat(front);
      AppendedNulsAtEnd(front);
      CPrefixOfConcat(Concat(front), last);
      CPrefixIsWholeIff(Concat(front));
      if !NulFree(Concat(front)) && last != [] {
        var i :| 0 <= i < cut && s[i] == NUL;
        NulsReach(s, i, cut);
        assert last[0] == s[cut];
      }
    }
  }

  lemma {:induction false} NulsReach(s: string, i: nat, j: nat)
    requires NulsAtEnd(s) && i <= j < |s| && s[i] == NUL
    ensures s[j] == NUL
    decreases j - i
  {
    if i < j {
      NulsReach(s, i + 1, j);
    }
  }

  function Singles(s: string): seq<string> {
    if s == "" then [] else Singles(s[..|s| - 1]) + [[s[|s| - 1]]]
  }

  lemma {:induction false} SinglesCut(s: string)
    ensures CutsOf(s, Singles(s))
  {
    if s != "" {
      SinglesCut(s[..|s| - 1]);
      assert Singles(s)[..|Singles(s)| - 1] == Singles(s[..|s| - 1]);
    }
  }

  /** Two ways to cut the same stream around a NUL followed by another byte. */
  function Apart(x: string, c: char, y: string): seq<string> {
    Singles(x) + [[NUL], [c]] + Singles(y)
  }

  function Together(x: string, c: char, y: string): seq<string> {
    Singles(x) + [[NUL, c]] + Singles(y)
  }

  lemma CutsDiffer(x: string, c: char, y: string)
    requires c != NUL
    ensures CutsOf(x + [NUL, c] + y, Apart(x, c, y)) && CutsOf(x + [NUL, c] + y, Together(x, c, y))
    ensures |Appended(Apart(x, c, y))| == |Appended(Together(x, c, y))| + 1
  {
    hide Concat, Appended, CPrefix, Singles;
    var xs, ys := Singles(x), Singles(y);
    SinglesCut(x);
    SinglesCut(y);
    assert xs + [[NUL], [c]] == xs + [[NUL]] + [[c]];
    Push(xs, [NUL]);
    Push(xs + [[NUL]], [c]);
    Push(xs, [NUL, c]);
    ConcatAppend(xs + [[NUL], [c]], ys);
    ConcatAppend(xs + [[NUL, c]], ys);
    AppendedAppend(xs + [[NUL], [c]], ys);
    AppendedAppend(xs + [[NUL, c]], ys);
    ShortPrefixes(c);
    assert Concat(Apart(x, c, y)) == x + [NUL, c] + y;
  }

  lemma ShortPrefixes(c: char)
    requires c != NUL
    ensures CPrefix([NUL]) == [] && CPrefix([NUL, c]) == [] && CPrefix([c]) == [c]
  {
  }

  /** What the client gets is independent of how the stream is cut exactly if no NUL
      comes before a byte that is not one. */
  lemma ClientIsIndependentOfCutsIff(stream: string)
    ensures (forall a, b :: CutsOf(stream, a) && CutsOf(stream, b) ==> Appended(a) == Appended(b)) <==>
              NulsAtEnd(stream)
  {
    if NulsAtEnd(stream) {
      forall a, b | CutsOf(stream, a) && CutsOf(stream, b)
        ensures Appended(a) == Appended(b)
      {
        AppendedNulsAtEnd(a);
        AppendedNulsAtEnd(b);
      }
    } else {
      var i :| 0 <= i < |stream| - 1 && stream[i] == NUL && stream[i + 1] != NUL;
      var x, c, y := stream[..i], stream[i + 1], stream[i + 2..];
      assert stream == x + [NUL, c] + y;
      CutsDiffer(x, c, y);
    }
  }
}
