/**
  Frames of a run's event stream: as the server writes them, one text per frame, and as the browser reads them
  back from whatever chunks arrive. It handles the part of sections 9.2.5 and 9.2.6 of the WHATWG HTML Standard
  that the server uses: one data line a frame.
 */
module RunStream {
  import opened Results
  import opened Text
  import opened EventStream

  datatype Frame = Frame(event: string, id: nat, data: string)

  // ---------------------------------------------------------------------------------------------
  // Reading a block
  // ---------------------------------------------------------------------------------------------

  function Lines(s: string): (r: seq<string>)
    ensures |r| >= 1
  {
    if s == "" then [""]
    else if s[0] == '\n' then [""] + Lines(s[1..])
    else var rest := Lines(s[1..]); [[s[0]] + rest[0]] + rest[1..]
  }

  /** The first line with a prefix, without it. */
  function Field(lines: seq<string>, prefix: string): Option<string> {
    if lines == [] then None
    else if prefix <= lines[0] then Some(lines[0][|prefix|..])
    else Field(lines[1..], prefix)
  }

  predicate IsDigit(c: char) { '0' <= c <= '9' }

  predicate IsNumber(s: string) { s != "" && forall i :: 0 <= i < |s| ==> IsDigit(s[i]) }

  function Number(s: string): nat
    requires forall i :: 0 <= i < |s| ==> IsDigit(s[i])
    decreases |s|
  {
    if s == "" then 0 else Number(s[..|s| - 1]) * 10 + (assert IsDigit(s[|s| - 1]); s[|s| - 1] as int - '0' as int)
  }

  function ParseBlock(raw: string): Option<Frame> {
    var lines := Lines(raw);
    match Field(lines, "data: ")
    case None => None
    case Some(data) =>
      var event := match Field(lines, "event: ") case Some(e) => e case None => "message";
      var rawID := match Field(lines, "id: ") case Some(i) => i case None => "";
      Some(Frame(event, if IsNumber(rawID) then Number(rawID) else 0, data))
  }

  /** The lines of a text, joined again by line ends. */
  function Unlines(lines: seq<string>): string
    requires lines != []
  {
    if |lines| == 1 then lines[0] else lines[0] + "\n" + Unlines(lines[1..])
  }

  ghost predicate NoLineEnds(lines: seq<string>) {
    forall i :: 0 <= i < |lines| ==> '\n' !in lines[i]
  }

  /** Lines are what line ends part: none is in a line, and between the lines they make the text again. */
  lemma {:induction false} LinesExactly(s: string)
    ensures Unlines(Lines(s)) == s && NoLineEnds(Lines(s))
  {
    if s != "" {
      LinesExactly(s[1..]);
      if s[0] == '\n' { EmptyLine(Lines(s[1..])); } else { LongerLine(s[0], Lines(s[1..])); LongerHasNone(s[0], Lines(s[1..])); }
    }
  }

  lemma EmptyLine(rest: seq<string>)
    requires rest != [] && NoLineEnds(rest)
    ensures NoLineEnds([""] + rest) && Unlines([""] + rest) == "\n" + Unlines(rest)
  {
    assert ([""] + rest)[1..] == rest;
  }

  lemma LongerLine(c: char, rest: seq<string>)
    requires rest != []
    ensures Unlines([[c] + rest[0]] + rest[1..]) == [c] + Unlines(rest)
  {
    var longer := [[c] + rest[0]] + rest[1..];
    assert longer[1..] == rest[1..] && longer[0] == [c] + rest[0];
    if |rest| > 1 {
      TwoOrMore(longer);
      TwoOrMore(rest);
      hide Unlines;
      Associates([c], rest[0], "\n", Unlines(rest[1..]));
    }
  }

  lemma LongerHasNone(c: char, rest: seq<string>)
    requires rest != [] && NoLineEnds(rest) && c != '\n'
    ensures NoLineEnds([[c] + rest[0]] + rest[1..])
  {
    var longer := [[c] + rest[0]] + rest[1..];
    forall i | 0 <= i < |longer| ensures '\n' !in longer[i] {
      if i > 0 { assert longer[i] == rest[i]; }
    }
  }

  lemma Associates(a: string, b: string, c: string, d: string)
    ensures a + b + c + d == a + (b + c + d)
  {
  }

  lemma TwoOrMore(lines: seq<string>)
    requires |lines| > 1
    ensures Unlines(lines) == lines[0] + "\n" + Unlines(lines[1..])
  {
  }

  /** The first line with the prefix is the i-th. */
  ghost predicate FirstWith(lines: seq<string>, prefix: string, i: int) {
    0 <= i < |lines| && prefix <= lines[i] && forall j :: 0 <= j < i ==> !(prefix <= lines[j])
  }

  lemma {:induction false} FieldExactly(lines: seq<string>, prefix: string)
    ensures Field(lines, prefix).None? <==> forall i :: !FirstWith(lines, prefix, i)
    ensures forall i :: FirstWith(lines, prefix, i) ==> Field(lines, prefix) == Some(lines[i][|prefix|..])
  {
    if lines != [] {
      FieldExactly(lines[1..], prefix);
      if prefix <= lines[0] {
        assert FirstWith(lines, prefix, 0);
      } else {
        assert forall i :: FirstWith(lines, prefix, i) ==> FirstWith(lines[1..], prefix, i - 1);
        assert forall i :: FirstWith(lines[1..], prefix, i) ==> FirstWith(lines, prefix, i + 1);
      }
    }
  }

  /**
    A block is a frame exactly if it has data: the first data line counts, the first event line names the event,
    "message" if there is none, and the first id line numbers it, zero if there is none or it is no number.
   */
  ghost predicate ReadsAs(lines: seq<string>, frame: Option<Frame>) {
    && (frame.None? <==> forall i :: !FirstWith(lines, "data: ", i))
    && (frame.Some? ==>
          && (forall i :: FirstWith(lines, "data: ", i) ==> frame.value.data == lines[i][6..])
          && (forall i :: FirstWith(lines, "event: ", i) ==> frame.value.event == lines[i][7..])
          && ((forall i :: !FirstWith(lines, "event: ", i)) ==> frame.value.event == "message")
          && (forall i :: FirstWith(lines, "id: ", i) && IsNumber(lines[i][4..]) ==> frame.value.id == Number(lines[i][4..]))
          && (forall i :: FirstWith(lines, "id: ", i) && !IsNumber(lines[i][4..]) ==> frame.value.id == 0)
          && ((forall i :: !FirstWith(lines, "id: ", i)) ==> frame.value.id == 0))
  }

  lemma ParsedExactly(raw: string)
    ensures ReadsAs(Lines(raw), ParseBlock(raw))
  {
    hide Lines, Field, Number, FirstWith;
    FieldExactly(Lines(raw), "data: ");
    FieldExactly(Lines(raw), "event: ");
    FieldExactly(Lines(raw), "id: ");
  }

  function FramesOf(blocks: seq<string>): seq<Frame>
    decreases |blocks|
  {
    if blocks == [] then []
    else
      var earlier := FramesOf(blocks[..|blocks| - 1]);
      match ParseBlock(blocks[|blocks| - 1])
      case None => earlier
      case Some(frame) => earlier + [frame]
  }

  lemma {:induction false} FramesAdd(x: seq<string>, y: seq<string>)
    ensures FramesOf(x + y) == FramesOf(x) + FramesOf(y)
    decreases |y|
  {
    if y == [] {
      assert x + y == x;
    } else {
      var rest := y[..|y| - 1];
      assert (x + y)[..|x + y| - 1] == x + rest && (x + y)[|x + y| - 1] == y[|y| - 1];
      FramesAdd(x, rest);
    }
  }

  /** readSSE: a buffer across chunks, and a frame for every block in it that has data. */
  method ReadSSE(chunks: seq<string>) returns (frames: seq<Frame>)
    ensures frames == FramesOf(ReadAll(chunks).0)
  {
    frames := [];
    var buffer := "";
    for i := 0 to |chunks|
      invariant frames == FramesOf(ReadAll(chunks[..i]).0) && buffer == ReadAll(chunks[..i]).1
    {
      assert chunks[..i + 1][..i] == chunks[..i];
      var (events, rest) := Split(Norm(buffer + chunks[i]));
      FramesAdd(ReadAll(chunks[..i]).0, events);
      var more := ReadEvents(events);
      frames := frames + more;
      buffer := rest;
    }
    assert chunks[..|chunks|] == chunks;
  }

  method ReadEvents(events: seq<string>) returns (frames: seq<Frame>)
    ensures frames == FramesOf(events)
  {
    frames := [];
    for i := 0 to |events|
      invariant frames == FramesOf(events[..i])
    {
      assert events[..i + 1][..i] == events[..i];
      var frame := ParseBlock(events[i]);
      if frame.Some? { frames := frames + [frame.value]; }
    }
    assert events[..|events|] == events;
  }

  // ---------------------------------------------------------------------------------------------
  // Writing
  // ---------------------------------------------------------------------------------------------

  datatype Item = Keepalive | Written(sequence: int, event: string, data: string)

  /** What the server writes up to the blank line. */
  function BlockText(item: Item): string {
    match item
    case Keepalive => ": keep-alive"
    case Written(sequence, event, data) =>
      (if sequence > 0 then "id: " + Decimal(sequence) + "\n" else "") + ("event: " + event + "\n" + ("data: " + data))
  }

  function StreamText(items: seq<Item>): string {
    if items == [] then "" else BlockText(items[0]) + "\n\n" + StreamText(items[1..])
  }

  function BlocksOf(items: seq<Item>): seq<string> {
    if items == [] then [] else [BlockText(items[0])] + BlocksOf(items[1..])
  }

  /** Event types and JSON texts hold no line ends. */
  predicate OneLine(s: string) {
    forall i :: 0 <= i < |s| ==> s[i] != '\n' && s[i] != '\r'
  }

  predicate Plain(item: Item) {
    item.Written? ==> OneLine(item.event) && OneLine(item.data)
  }

  predicate AllPlain(items: seq<Item>) {
    forall i :: 0 <= i < |items| ==> Plain(items[i])
  }

  function Sent(items: seq<Item>): seq<Frame> {
    if items == [] then []
    else
      var rest := Sent(items[1..]);
      match items[0]
      case Keepalive => rest
      case Written(sequence, event, data) => [Frame(event, if sequence > 0 then sequence else 0, data)] + rest
  }

  // ---------------------------------------------------------------------------------------------
  // What is written is read
  // ---------------------------------------------------------------------------------------------

  lemma {:induction false} DecimalIsNumber(n: nat)
    ensures IsNumber(Decimal(n)) && Number(Decimal(n)) == n && OneLine(Decimal(n))
  {
    if n >= 10 {
      DecimalIsNumber(n / 10);
      var d := Decimal(n);
      assert d[..|d| - 1] == Decimal(n / 10);
    } else {
      var d := Decimal(n);
      assert d[..|d| - 1] == "";
    }
  }

  lemma {:induction false} LinesJoin(x: string, y: string)
    requires OneLine(x)
    ensures Lines(x + "\n" + y) == [x] + Lines(y)
    decreases |x|
  {
    var s := x + "\n" + y;
    if x == "" {
      assert s[1..] == y;
    } else {
      LinesJoin(x[1..], y);
      assert s[1..] == x[1..] + "\n" + y && s[0] == x[0];
      var rest := Lines(s[1..]);
      assert rest[0] == x[1..] && rest[1..] == Lines(y);
      assert [x[0]] + x[1..] == x;
    }
  }

  lemma {:induction false} OneLineIs(x: string)
    requires OneLine(x)
    ensures Lines(x) == [x]
    decreases |x|
  {
    if x != "" {
      OneLineIs(x[1..]);
      assert [x[0]] + x[1..] == x;
    }
  }

  lemma OneLines(x: string, y: string)
    requires OneLine(x) && OneLine(y)
    ensures OneLine(x + y)
  {
  }

  lemma TwoLines(e: string, d: string)
    requires OneLine(e) && OneLine(d)
    ensures Lines(e + "\n" + d) == [e, d]
  {
    hide Lines;
    LinesJoin(e, d);
    OneLineIs(d);
  }

  lemma ThreeLines(i: string, e: string, d: string)
    requires OneLine(i) && OneLine(e) && OneLine(d)
    ensures Lines(i + "\n" + (e + "\n" + d)) == [i, e, d]
  {
    hide Lines;
    LinesJoin(i, e + "\n" + d);
    TwoLines(e, d);
  }

  lemma ParseWritten(sequence: int, event: string, data: string)
    requires OneLine(event) && OneLine(data)
    ensures ParseBlock(BlockText(Written(sequence, event, data))) == Some(Frame(event, if sequence > 0 then sequence else 0, data))
  {
    hide ParseBlock, Lines, Field, Number, IsNumber, Decimal;
    var raw, e, d := BlockText(Written(sequence, event, data)), "event: " + event, "data: " + data;
    OneLines("event: ", event);
    OneLines("data: ", data);
    assert e[7..] == event && d[6..] == data;
    if sequence > 0 {
      var i := "id: " + Decimal(sequence);
      DecimalIsNumber(sequence);
      OneLines("id: ", Decimal(sequence));
      ThreeLines(i, e, d);
      assert i[4..] == Decimal(sequence);
      FieldsOfThree(i, e, d);
      assert raw == i + "\n" + (e + "\n" + d);
      ParsesTo(raw, data, event, Some(Decimal(sequence)));
    } else {
      TwoLines(e, d);
      FieldsOfTwo(e, d);
      assert raw == e + "\n" + d;
      ParsesTo(raw, data, event, None);
    }
  }

  lemma ParsesTo(raw: string, data: string, event: string, id: Option<string>)
    requires Field(Lines(raw), "data: ") == Some(data) && Field(Lines(raw), "event: ") == Some(event) && Field(Lines(raw), "id: ") == id
    ensures ParseBlock(raw) == Some(Frame(event, if id.Some? && IsNumber(id.value) then Number(id.value) else 0, data))
  {
    hide Lines, Field, Number;
  }

  lemma FieldsOfTwo(e: string, d: string)
    requires "event: " <= e && "data: " <= d
    ensures Field([e, d], "data: ") == Some(d[6..]) && Field([e, d], "event: ") == Some(e[7..]) && Field([e, d], "id: ") == None
  {
    assert e[0] == 'e' && d[0] == 'd' && [e, d][1..] == [d] && [d][1..] == [];
    assert !("id: " <= e) && !("id: " <= d) && !("data: " <= e);
    assert Field([d], "id: ") == Field([], "id: ");
  }

  lemma FieldsOfThree(i: string, e: string, d: string)
    requires "id: " <= i && "event: " <= e && "data: " <= d
    ensures Field([i, e, d], "data: ") == Some(d[6..]) && Field([i, e, d], "event: ") == Some(e[7..]) && Field([i, e, d], "id: ") == Some(i[4..])
  {
    FieldsOfTwo(e, d);
    assert i[0] == 'i' && [i, e, d][1..] == [e, d];
  }

  /** No blank line, no line end at the end, no carriage return. */
  predicate Tight(s: string) {
    && s != "" && s[|s| - 1] != '\n'
    && (forall i :: 0 <= i < |s| ==> s[i] != '\r' && !BlankLineAt(s, i))
  }

  lemma TightLine(x: string, y: string)
    requires OneLine(x) && x != "" && (y != "" ==> Tight(y) && y[0] != '\n')
    ensures Tight(x) && (y != "" ==> Tight(x + "\n" + y))
  {
    var s := x + "\n" + y;
    forall i | 0 <= i < |s| && y != "" ensures s[i] != '\r' && !BlankLineAt(s, i) {
      if i > |x| { assert BlankLineAt(s, i) == BlankLineAt(y, i - |x| - 1); }
    }
  }

  lemma BlockIsTight(item: Item)
    requires Plain(item)
    ensures Tight(BlockText(item))
  {
    if item.Written? {
      var e, d := "event: " + item.event, "data: " + item.data;
      OneLines("event: ", item.event);
      OneLines("data: ", item.data);
      TightLine(d, "");
      TightLine(e, d);
      if item.sequence > 0 {
        DecimalIsNumber(item.sequence);
        var i := "id: " + Decimal(item.sequence);
        OneLines("id: ", Decimal(item.sequence));
        TightLine(i, e + "\n" + d);
        assert BlockText(item) == i + "\n" + (e + "\n" + d);
      } else {
        assert BlockText(item) == e + "\n" + d;
      }
    } else {
      assert OneLine(": keep-alive");
      TightLine(": keep-alive", "");
    }
  }

  lemma SplitTight(b: string, rest: string)
    requires Tight(b)
    ensures Split(b + "\n\n" + rest) == ([b] + Split(rest).0, Split(rest).1)
  {
    var s := b + "\n\n" + rest;
    assert BlankLineAt(s, |b|);
    forall k | 0 <= k < |b| ensures !BlankLineAt(s, k) { assert k + 1 < |b| ==> BlankLineAt(s, k) == BlankLineAt(b, k); }
    assert Break(s) == Some(|b|);
    assert s[..|b|] == b && s[|b| + 2..] == rest;
  }

  lemma {:induction false} TextSplits(items: seq<Item>)
    requires AllPlain(items)
    ensures Split(StreamText(items)) == (BlocksOf(items), "")
    ensures forall i :: 0 <= i < |StreamText(items)| ==> StreamText(items)[i] != '\r'
  {
    if items != [] {
      BlockIsTight(items[0]);
      TextSplits(items[1..]);
      SplitTight(BlockText(items[0]), StreamText(items[1..]));
    }
  }

  lemma {:induction false} BlocksParse(items: seq<Item>)
    requires AllPlain(items)
    ensures FramesOf(BlocksOf(items)) == Sent(items)
  {
    if items != [] {
      BlocksParse(items[1..]);
      FramesAdd([BlockText(items[0])], BlocksOf(items[1..]));
      FrameOfItem(items[0]);
    }
  }

  lemma FrameOfOne(raw: string)
    ensures FramesOf([raw]) == match ParseBlock(raw) case None => [] case Some(frame) => [frame]
  {
    assert [raw][..0] == [];
    assert [raw][..|[raw]| - 1] == [];
  }

  lemma KeepaliveIsNone()
    ensures ParseBlock(": keep-alive") == None
  {
    hide Lines, Number, IsNumber;
    OneLineIs(": keep-alive");
    var lines := Lines(": keep-alive");
    assert lines[0][0] == ':' && !("data: " <= lines[0]) && lines[1..] == [];
    assert Field(lines, "data: ") == Field(lines[1..], "data: ");
  }

  lemma FrameOfItem(item: Item)
    requires Plain(item)
    ensures FramesOf([BlockText(item)]) == match item
      case Keepalive => []
      case Written(sequence, event, data) => [Frame(event, if sequence > 0 then sequence else 0, data)]
  {
    FrameOfOne(BlockText(item));
    hide ParseBlock, FramesOf;
    match item
    case Keepalive => KeepaliveIsNone();
    case Written(sequence, event, data) => ParseWritten(sequence, event, data);
  }

  /** Every frame the server writes is read, once and in order, however the stream is cut, and nothing is left over. */
  lemma WrittenIsRead(items: seq<Item>, chunks: seq<string>)
    requires AllPlain(items) && Whole(chunks) == StreamText(items)
    ensures FramesOf(ReadAll(chunks).0) == Sent(items) && ReadAll(chunks).1 == ""
  {
    TextSplits(items);
    NormKeeps(StreamText(items));
    ReadsTheWhole(chunks);
    BlocksParse(items);
  }

  /** A stream broken off anywhere reads as the frames that were complete, in order. */
  lemma BrokenOffIsRead(items: seq<Item>, chunks: seq<string>)
    requires AllPlain(items) && Whole(chunks) <= StreamText(items)
    ensures FramesOf(ReadAll(chunks).0) <= Sent(items)
  {
    hide Split, FramesOf, Norm, ReadAll;
    var t, s := Whole(chunks), StreamText(items);
    TextSplits(items);
    NoReturns(s, t);
    NormKeeps(t);
    ReadsTheWhole(chunks);
    BlocksParse(items);
    assert s == t + s[|t|..];
    SplitGrows(t, s[|t|..]);
    FramesAdd(Split(t).0, Split(Split(t).1 + s[|t|..]).0);
  }

  lemma NoReturns(s: string, t: string)
    requires t <= s && forall i :: 0 <= i < |s| ==> s[i] != '\r'
    ensures NoCRLF(t) && NoCRCRLF(t)
  {
    assert forall i :: 0 <= i < |t| ==> t[i] == s[i];
  }
}
