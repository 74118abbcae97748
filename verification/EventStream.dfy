/**
  The text of an event stream, cut into chunks by the network: the reader normalizes line ends and splits at
  blank lines on whatever has arrived, and keeps the rest for the next chunk. Shown here: which streams read
  the same however they are cut.
 */
module EventStream {
  import opened Results

  // ---------------------------------------------------------------------------------------------
  // Line ends
  // ---------------------------------------------------------------------------------------------

  predicate StartsCRLF(s: string) { |s| >= 2 && s[0] == '\r' && s[1] == '\n' }

  /** Replaces every "\r\n" by "\n", in one pass. */
  function Norm(s: string): string
    decreases |s|
  {
    if s == "" then ""
    else if StartsCRLF(s) then "\n" + Norm(s[2..])
    else [s[0]] + Norm(s[1..])
  }

  predicate NoCRLF(s: string) {
    forall i :: 0 <= i < |s| - 1 && s[i] == '\r' ==> s[i + 1] != '\n'
  }

  /** No carriage return before a line end of two characters: such a line end would survive one pass. */
  predicate NoCRCRLF(s: string) {
    forall i :: 0 <= i < |s| - 2 && s[i] == '\r' && s[i + 1] == '\r' ==> s[i + 2] != '\n'
  }

  predicate Ends(s: string, c: char) { s != "" && s[|s| - 1] == c }

  predicate Starts(s: string, c: char) { s != "" && s[0] == c }

  lemma {:induction false} NormSplits(x: string, y: string)
    requires !(Ends(x, '\r') && Starts(y, '\n'))
    ensures Norm(x + y) == Norm(x) + Norm(y)
    decreases |x|
  {
    if x == "" {
      assert x + y == y;
    } else if StartsCRLF(x) {
      assert (x + y)[2..] == x[2..] + y;
      NormSplits(x[2..], y);
    } else {
      assert (x + y)[1..] == x[1..] + y;
      NormSplits(x[1..], y);
    }
  }

  lemma {:induction false} NormKeeps(s: string)
    requires NoCRLF(s)
    ensures Norm(s) == s
    decreases |s|
  {
    if s != "" { NormKeeps(s[1..]); }
  }

  /** The first line end of two becomes a line end, and so on with what follows it. */
  lemma {:induction false} NormReplaces(x: string, y: string)
    requires NoCRLF(x)
    ensures Norm(x + "\r\n" + y) == x + "\n" + Norm(y)
    decreases |x|
  {
    var s := x + "\r\n" + y;
    if x == "" {
      assert s[2..] == y;
    } else {
      assert s[1..] == x[1..] + "\r\n" + y;
      assert !StartsCRLF(s);
      NormReplaces(x[1..], y);
    }
  }

  lemma {:induction false} NormEnds(s: string)
    ensures if s == "" then Norm(s) == "" else Norm(s) != "" && Norm(s)[|Norm(s)| - 1] == s[|s| - 1]
    decreases |s|
  {
    if StartsCRLF(s) { NormEnds(s[2..]); } else if s != "" { NormEnds(s[1..]); }
  }

  lemma NormStarts(s: string)
    ensures Starts(Norm(s), '\n') <==> Starts(s, '\n') || StartsCRLF(s)
  {
  }

  lemma {:induction false} NormIsClean(s: string)
    requires NoCRCRLF(s)
    ensures NoCRLF(Norm(s))
    decreases |s|
  {
    if StartsCRLF(s) {
      NormIsClean(s[2..]);
    } else if s != "" {
      NormIsClean(s[1..]);
      NormStarts(s[1..]);
      assert !(s[0] == '\r' && StartsCRLF(s[1..]));
      var rest := Norm(s[1..]);
      assert Norm(s) == [s[0]] + rest;
      forall i | 0 <= i < |rest| && Norm(s)[i] == '\r' ensures Norm(s)[i + 1] != '\n' {
        if i > 0 { assert rest[i - 1] == '\r'; }
      }
    }
  }

  /** Normalizing early does no harm where no carriage return comes before a line end of two. */
  lemma NormAgain(p: string, c: string)
    requires NoCRCRLF(p)
    ensures Norm(Norm(p) + c) == Norm(p + c)
  {
    hide Norm, NoCRLF;
    NormEnds(p);
    NormIsClean(p);
    NormKeeps(Norm(p));
    if Ends(p, '\r') && Starts(c, '\n') {
      LineEndCutInTwo(p[..|p| - 1], p, c);
    } else {
      NormSplits(p, c);
      NormSplits(Norm(p), c);
    }
  }

  /** The chunk's line end completes the carriage return before it. */
  lemma LineEndCutInTwo(q: string, p: string, c: string)
    requires NoCRCRLF(p) && p == q + "\r" && Starts(c, '\n')
    ensures Norm(Norm(p) + c) == Norm(p + c)
  {
    hide NoCRLF;
    assert NoCRCRLF(q) by { assert forall i :: 0 <= i < |q| ==> q[i] == p[i]; }
    OneReturn();
    hide Norm, NoCRCRLF;
    NormIsClean(q);
    NormKeeps(Norm(q));
    NormSplits(q, "\r");
    NormSplits(q, "\r" + c);
    NormSplits(Norm(q), "\r" + c);
    assert p + c == q + ("\r" + c);
    assert Norm(p) + c == Norm(q) + ("\r" + c);
  }

  lemma OneReturn()
    ensures Norm("\r") == "\r"
  {
    NormKeeps("\r");
  }

  // ---------------------------------------------------------------------------------------------
  // Blocks
  // ---------------------------------------------------------------------------------------------

  predicate BlankLineAt(s: string, i: nat) { i + 1 < |s| && s[i] == '\n' && s[i + 1] == '\n' }

  /** The first blank line. */
  function Break(s: string): (r: Option<nat>)
    ensures r.Some? ==> BlankLineAt(s, r.value) && forall k :: 0 <= k < r.value ==> !BlankLineAt(s, k)
    ensures r.None? ==> forall k :: 0 <= k < |s| ==> !BlankLineAt(s, k)
    decreases |s|
  {
    if |s| < 2 then None
    else if s[0] == '\n' && s[1] == '\n' then Some(0)
    else
      var rest := Break(s[1..]);
      assert forall k :: 1 <= k < |s| ==> BlankLineAt(s, k) == BlankLineAt(s[1..], k - 1);
      if rest.None? then None else Some(rest.value + 1)
  }

  /** The blocks that blank lines end, and what comes after the last. */
  function Split(s: string): (seq<string>, string)
    decreases |s|
  {
    match Break(s)
    case None => ([], s)
    case Some(i) => var (blocks, rest) := Split(s[i + 2..]); ([s[..i]] + blocks, rest)
  }

  lemma BreakStays(x: string, y: string)
    ensures Break(x).Some? ==> Break(x + y) == Break(x)
  {
    if Break(x).Some? {
      var i := Break(x).value;
      assert BlankLineAt(x + y, i);
      assert forall k :: 0 <= k < i ==> BlankLineAt(x + y, k) == BlankLineAt(x, k);
    }
  }

  lemma SplitStep(s: string)
    ensures Break(s).None? ==> Split(s) == ([], s)
    ensures Break(s).Some? ==>
      var i := Break(s).value;
      Split(s) == ([s[..i]] + Split(s[i + 2..]).0, Split(s[i + 2..]).1)
  {
  }

  /** A block that has ended stays as it is, whatever follows. */
  lemma {:induction false} SplitGrows(x: string, y: string)
    ensures Split(x + y) == (Split(x).0 + Split(Split(x).1 + y).0, Split(Split(x).1 + y).1)
    decreases |x|
  {
    hide Split, Break;
    BreakStays(x, y);
    SplitStep(x);
    if Break(x).Some? {
      var i := Break(x).value;
      var t := x[i + 2..];
      SplitStep(x + y);
      assert (x + y)[i + 2..] == t + y && (x + y)[..i] == x[..i];
      SplitGrows(t, y);
      var more := Split(Split(x).1 + y).0;
      assert Split(x).0 + more == [x[..i]] + (Split(t).0 + more);
    } else {
      assert [] + Split(x + y).0 == Split(x + y).0;
    }
  }

  /** What the blocks were cut from. */
  function Consumed(s: string): string
    requires |Split(s).1| <= |s|
  {
    s[..|s| - |Split(s).1|]
  }

  lemma {:induction false} RestIsASuffix(s: string)
    ensures |Split(s).1| <= |s| && s == Consumed(s) + Split(s).1
    ensures Consumed(s) == "" || Ends(Consumed(s), '\n')
    ensures Split(Consumed(s)) == (Split(s).0, "")
    decreases |s|
  {
    hide Split, Break;
    SplitStep(s);
    if Break(s).Some? {
      var i := Break(s).value;
      var t := s[i + 2..];
      RestIsASuffix(t);
      var c := s[..i + 2] + Consumed(t);
      assert s == s[..i + 2] + t;
      assert Consumed(s) == c;
      BreakOfPrefix(s, i);
      BreakStays(s[..i + 2], Consumed(t));
      SplitStep(c);
      assert c[..i] == s[..i] && c[i + 2..] == Consumed(t);
    } else {
      NothingToSplit(Consumed(s));
    }
  }

  lemma NothingToSplit(s: string)
    ensures s == "" ==> Split(s) == ([], "")
  {
  }

  lemma BreakOfPrefix(s: string, i: nat)
    requires Break(s) == Some(i)
    ensures Break(s[..i + 2]) == Some(i)
  {
    var t := s[..i + 2];
    assert BlankLineAt(t, i);
    assert forall k :: 0 <= k < i ==> BlankLineAt(t, k) == BlankLineAt(s, k);
  }

  // ---------------------------------------------------------------------------------------------
  // Chunks
  // ---------------------------------------------------------------------------------------------

  function Feed(buffer: string, chunk: string): (seq<string>, string) {
    Split(Norm(buffer + chunk))
  }

  /** The blocks handed on and the buffer left after all chunks. */
  function ReadAll(chunks: seq<string>): (seq<string>, string)
    decreases |chunks|
  {
    if chunks == [] then ([], "")
    else
      var (blocks, buffer) := ReadAll(chunks[..|chunks| - 1]);
      var (more, rest) := Feed(buffer, chunks[|chunks| - 1]);
      (blocks + more, rest)
  }

  function Whole(chunks: seq<string>): string
    decreases |chunks|
  {
    if chunks == [] then "" else Whole(chunks[..|chunks| - 1]) + chunks[|chunks| - 1]
  }

  lemma FeedContinues(p: string, c: string)
    requires NoCRCRLF(p)
    ensures var (blocks, buffer) := Split(Norm(p));
      Split(Norm(p + c)) == (blocks + Feed(buffer, c).0, Feed(buffer, c).1)
  {
    hide Split, Norm, NoCRLF, NoCRCRLF;
    var n := Norm(p);
    RestIsASuffix(n);
    var pre, rest := Consumed(n), Split(n).1;
    NormAgain(p, c);
    PrefixIsClean(p, pre);
    NormKeeps(pre);
    NormSplits(pre, rest + c);
    assert n + c == pre + (rest + c);
    SplitGrows(pre, Norm(rest + c));
    assert "" + Norm(rest + c) == Norm(rest + c);
  }

  lemma PrefixIsClean(p: string, pre: string)
    requires NoCRCRLF(p) && pre <= Norm(p)
    ensures NoCRLF(pre)
  {
    NormIsClean(p);
    hide Norm;
    assert forall i :: 0 <= i < |pre| ==> pre[i] == Norm(p)[i];
  }

  lemma {:induction false} ReadsTheWhole(chunks: seq<string>)
    requires NoCRCRLF(Whole(chunks))
    ensures ReadAll(chunks) == Split(Norm(Whole(chunks)))
    decreases |chunks|
  {
    if chunks != [] {
      var p, c := Whole(chunks[..|chunks| - 1]), chunks[|chunks| - 1];
      assert forall i :: 0 <= i < |p| ==> p[i] == (p + c)[i];
      ReadsTheWhole(chunks[..|chunks| - 1]);
      FeedContinues(p, c);
    }
  }

  // ---------------------------------------------------------------------------------------------
  // The other streams
  // ---------------------------------------------------------------------------------------------

  function Returns(s: string): nat {
    if s == "" then 0 else (if s[0] == '\r' then 1 else 0) + Returns(s[1..])
  }

  function ReturnsIn(blocks: seq<string>): nat {
    if blocks == [] then 0 else Returns(blocks[0]) + ReturnsIn(blocks[1..])
  }

  lemma {:induction false} ReturnsAdd(x: string, y: string)
    ensures Returns(x + y) == Returns(x) + Returns(y)
    decreases |x|
  {
    if x == "" { assert x + y == y; } else { assert (x + y)[1..] == x[1..] + y; ReturnsAdd(x[1..], y); }
  }

  lemma {:induction false} ReturnsInAdd(x: seq<string>, y: seq<string>)
    ensures ReturnsIn(x + y) == ReturnsIn(x) + ReturnsIn(y)
    decreases |x|
  {
    if x == [] { assert x + y == y; } else { assert (x + y)[1..] == x[1..] + y; ReturnsInAdd(x[1..], y); }
  }

  lemma {:induction false} SplitKeepsReturns(s: string)
    ensures ReturnsIn(Split(s).0) + Returns(Split(s).1) == Returns(s)
    decreases |s|
  {
    if Break(s).Some? {
      var i := Break(s).value;
      SplitKeepsReturns(s[i + 2..]);
      assert s == s[..i] + ("\n\n" + s[i + 2..]);
      ReturnsAdd(s[..i], "\n\n" + s[i + 2..]);
      ReturnsAdd("\n\n", s[i + 2..]);
      assert Split(s).0[1..] == Split(s[i + 2..]).0;
    }
  }

  lemma {:induction false} NormDropsReturns(s: string)
    ensures Returns(Norm(s)) <= Returns(s) && (!NoCRLF(s) ==> Returns(Norm(s)) < Returns(s))
    decreases |s|
  {
    if StartsCRLF(s) {
      NormDropsReturns(s[2..]);
      ReturnsAdd(s[..2], s[2..]);
      assert s == s[..2] + s[2..];
    } else if s != "" {
      NormDropsReturns(s[1..]);
    }
  }

  /** Normalized once, a stream ending in two carriage returns and a line end still ends in a line end of two. */
  lemma TripleSurvives(p: string)
    requires |p| >= 3 && p[|p| - 3..] == "\r\r\n"
    ensures !NoCRLF(Split(Norm(p)).1) && Ends(Split(Norm(p)).1, '\n')
  {
    hide Norm, Split;
    var q, t := p[..|p| - 3], p[|p| - 3..];
    assert p == q + t;
    NormSplits(q, t);
    TripleNorm(t);
    EndIsLeft(Norm(p));
  }

  /** A line end of two at the end of a text is left when the blocks have been cut off. */
  lemma EndIsLeft(n: string)
    requires |n| >= 2 && n[|n| - 2] == '\r' && n[|n| - 1] == '\n'
    ensures !NoCRLF(Split(n).1) && Ends(Split(n).1, '\n')
  {
    hide Split;
    RestIsASuffix(n);
    SplitEndsBlank(n);
    var rest, c := Split(n).1, Consumed(n);
    assert |c| + |rest| == |n| && forall k :: 0 <= k < |c| ==> c[k] == n[k];
    assert |rest| >= 2;
    assert rest[|rest| - 2] == n[|n| - 2] && rest[|rest| - 1] == n[|n| - 1];
  }

  lemma TripleNorm(t: string)
    requires t == "\r\r\n"
    ensures Norm(t) == "\r\n"
  {
    assert t[1..] == "\r\n" && StartsCRLF(t[1..]) && t[1..][2..] == "";
    assert Norm(t[1..]) == "\n" + Norm(t[1..][2..]);
  }

  /** What was consumed ends in a blank line. */
  lemma {:induction false} SplitEndsBlank(s: string)
    ensures |Split(s).1| <= |s|
    ensures Consumed(s) != "" ==> |Consumed(s)| >= 2 && Consumed(s)[|Consumed(s)| - 2] == '\n' && Consumed(s)[|Consumed(s)| - 1] == '\n'
    decreases |s|
  {
    hide Split, Break;
    SplitStep(s);
    RestIsASuffix(s);
    if Break(s).Some? {
      var i := Break(s).value;
      SplitEndsBlank(s[i + 2..]);
      RestIsASuffix(s[i + 2..]);
      assert Consumed(s) == s[..i + 2] + Consumed(s[i + 2..]);
    }
  }

  /** Read in two, the stream loses a carriage return that it keeps when it is read whole. */
  lemma CutAfterTriple(p: string, c: string)
    requires |p| >= 3 && p[|p| - 3..] == "\r\r\n"
    ensures ReadAll([p, c]) != ReadAll([p + c])
  {
    hide Norm, Split, Break, Returns, ReturnsIn, NoCRLF, ReadAll;
    var n := Norm(p);
    TripleSurvives(p);
    ReadTwo(p, c);
    NormSplits(p, c);
    var blocks, rest := Split(n).0, Split(n).1;
    NormSplits(rest, c);
    NormDropsReturns(rest);
    SplitKeepsReturns(n);
    SplitKeepsReturns(n + Norm(c));
    SplitKeepsReturns(Norm(rest + c));
    ReturnsAdd(n, Norm(c));
    ReturnsAdd(Norm(rest), Norm(c));
    ReturnsInAdd(blocks, Feed(rest, c).0);
  }

  lemma ReadTwo(p: string, c: string)
    ensures ReadAll([p, c]) == (Split(Norm(p)).0 + Feed(Split(Norm(p)).1, c).0, Feed(Split(Norm(p)).1, c).1)
    ensures ReadAll([p + c]) == Split(Norm(p + c))
  {
    ReadOne(p);
    ReadOne(p + c);
    assert [p, c][..1] == [p];
  }

  lemma ReadOne(p: string)
    ensures ReadAll([p]) == Split(Norm(p)) && Whole([p]) == p
  {
    assert [p][..0] == [] && "" + p == p;
    assert [] + Split(Norm(p)).0 == Split(Norm(p)).0;
  }

  lemma WholeOfTwo(p: string, c: string)
    ensures Whole([p, c]) == p + c
  {
    ReadOne(p);
    assert [p, c][..1] == [p];
  }

  /** Every way of cutting a stream reads the same exactly when no carriage return precedes a line end of two characters. */
  lemma ChunkIndependentExactly(s: string)
    ensures NoCRCRLF(s) <==> forall chunks :: Whole(chunks) == s ==> ReadAll(chunks) == ReadAll([s])
  {
    if NoCRCRLF(s) {
      ReadOne(s);
      forall chunks | Whole(chunks) == s ensures ReadAll(chunks) == ReadAll([s]) {
        ReadsTheWhole(chunks);
      }
    } else {
      var i :| 0 <= i < |s| - 2 && s[i] == '\r' && s[i + 1] == '\r' && s[i + 2] == '\n';
      var p, c := s[..i + 3], s[i + 3..];
      assert s == p + c && p[|p| - 3..] == "\r\r\n";
      WholeOfTwo(p, c);
      CutAfterTriple(p, c);
    }
  }
}
