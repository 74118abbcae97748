/**
  Compacting a long tool result: a head, a marker and a tail, as much of the text as the token estimate allows.
  Text is a sequence of Unicode code points, and the estimate counts four ASCII characters, or one other, a token.
 */
module CompactText {
  import opened Text

  predicate IsAscii(c: char) { c <= '\U{7F}' }

  function AsciiIn(s: string): nat
    decreases |s|
  {
    if s == "" then 0 else AsciiIn(s[..|s| - 1]) + (if IsAscii(s[|s| - 1]) then 1 else 0)
  }

  function Tokens(ascii: nat, others: nat): nat {
    if ascii + others == 0 then 0
    else Max(1, (ascii + 3) / 4 + others)
  }

  function Max(a: nat, b: nat): nat { if a >= b then a else b }

  /** EstimateTokens, as one scan of the text. */
  method EstimateTokens(value: string) returns (tokens: nat)
    ensures tokens == Estimate(value)
    ensures IsEstimate(value, tokens)
  {
    EstimateExactly(value);
    if value == "" { return 0; }
    var asciiBytes, nonASCII := 0, 0;
    for i := 0 to |value|
      invariant asciiBytes == AsciiIn(value[..i]) && asciiBytes + nonASCII == i
    {
      assert value[..i + 1][..i] == value[..i];
      if IsAscii(value[i]) { asciiBytes := asciiBytes + 1; } else { nonASCII := nonASCII + 1; }
    }
    assert value[..|value|] == value;
    return Max(1, (asciiBytes + 3) / 4 + nonASCII);
  }

  lemma {:induction false} AsciiIsSome(s: string)
    ensures AsciiIn(s) <= |s|
    decreases |s|
  {
    if s != "" { AsciiIsSome(s[..|s| - 1]); }
  }

  function Estimate(s: string): nat {
    AsciiIsSome(s);
    Tokens(AsciiIn(s), |s| - AsciiIn(s))
  }

  /** The positions of a text's ASCII characters. */
  ghost function AsciiAt(s: string): set<int> {
    set i | 0 <= i < |s| && s[i] <= '\U{7F}'
  }

  /** A token for every four ASCII characters, rounded up, and one for every other. */
  ghost predicate IsEstimate(s: string, tokens: int) {
    var ascii := |AsciiAt(s)|;
    4 * (tokens - (|s| - ascii)) - 3 <= ascii <= 4 * (tokens - (|s| - ascii))
  }

  lemma {:induction false} AsciiInExactly(s: string)
    ensures AsciiIn(s) == |AsciiAt(s)|
    decreases |s|
  {
    if s != "" {
      var n := |s| - 1;
      AsciiInExactly(s[..n]);
      assert AsciiAt(s) == if s[n] <= '\U{7F}' then AsciiAt(s[..n]) + {n} else AsciiAt(s[..n]);
    }
  }

  lemma EstimateExactly(s: string)
    ensures IsEstimate(s, Estimate(s))
  {
    AsciiInExactly(s);
    AsciiIsSome(s);
  }

  /** UTF-8 bytes of a text. */
  function Bytes(s: string): nat
    decreases |s|
  {
    if s == "" then 0 else Bytes(s[..|s| - 1]) + Width(s[|s| - 1])
  }

  function Width(c: char): nat {
    if c <= '\U{7F}' then 1 else if c <= '\U{07FF}' then 2 else if c <= '\U{FFFF}' then 3 else 4
  }

  function Marker(value: string): string {
    "\n...[tool result compacted; original_bytes=" + Decimal(Bytes(value)) + "]...\n"
  }

  function Head(kept: nat): nat { kept * 2 / 3 }

  /** So many characters of the text around a marker: two thirds of them from its start, the rest from its end. */
  function Cut(value: string, marker: string, kept: nat): string
    requires kept <= |value|
  {
    value[..Head(kept)] + marker + value[|value| - (kept - Head(kept))..]
  }

  /** The text is the marker between a head and a tail of so many characters together, two thirds of them the head's. */
  ghost predicate IsCompacted(text: string, value: string, marker: string, kept: nat, head: nat) {
    && 3 * head <= 2 * kept < 3 * head + 3 && kept <= |value| && head <= |value| - (kept - head)
    && |text| == kept + |marker| && text[..head] == value[..head]
    && text[head..head + |marker|] == marker && text[head + |marker|..] == value[|value| - (kept - head)..]
  }

  lemma CutIsCompacted(value: string, marker: string, kept: nat)
    requires kept <= |value|
    ensures IsCompacted(Cut(value, marker, kept), value, marker, kept, Head(kept))
  {
  }

  // ---------------------------------------------------------------------------------------------
  // Monotonicity
  // ---------------------------------------------------------------------------------------------

  lemma {:induction false} AsciiAdds(x: string, y: string)
    ensures AsciiIn(x + y) == AsciiIn(x) + AsciiIn(y)
    decreases |y|
  {
    if y == "" {
      assert x + y == x;
    } else {
      var rest := y[..|y| - 1];
      assert (x + y)[..|x + y| - 1] == x + rest;
      AsciiAdds(x, rest);
    }
  }

  lemma OneAscii(c: char)
    ensures AsciiIn([c]) == if IsAscii(c) then 1 else 0
  {
    assert [c][..0] == "";
  }

  lemma TokensMonotone(a: nat, b: nat, c: nat, d: nat)
    requires a <= c && b <= d
    ensures Tokens(a, b) <= Tokens(c, d)
  {
  }

  /** One character more, wherever it goes, never lowers the estimate. */
  lemma EstimateMonotone(x: string, c: char, y: string)
    ensures Estimate(x + y) <= Estimate(x + [c] + y)
  {
    AsciiAdds(x, y);
    AsciiAdds(x, [c]);
    AsciiAdds(x + [c], y);
    OneAscii(c);
    AsciiIsSome(x + y);
    TokensMonotone(AsciiIn(x + y), |x + y| - AsciiIn(x + y), AsciiIn(x + [c] + y), |x + [c] + y| - AsciiIn(x + [c] + y));
  }

  /** Keeping one character more adds just that one, to the head or to the tail. */
  lemma CutGrows(value: string, marker: string, kept: nat)
    requires kept < |value|
    ensures Estimate(Cut(value, marker, kept)) <= Estimate(Cut(value, marker, kept + 1))
  {
    var h, t := Head(kept), |value| - (kept - Head(kept));
    if Head(kept + 1) == h + 1 {
      assert value[..h + 1] == value[..h] + [value[h]];
      assert Cut(value, marker, kept + 1) == value[..h] + [value[h]] + (marker + value[t..]);
      assert Cut(value, marker, kept) == value[..h] + (marker + value[t..]);
      EstimateMonotone(value[..h], value[h], marker + value[t..]);
    } else {
      assert Head(kept + 1) == h && value[t - 1..] == [value[t - 1]] + value[t..];
      assert Cut(value, marker, kept + 1) == value[..h] + marker + [value[t - 1]] + value[t..];
      assert Cut(value, marker, kept) == value[..h] + marker + value[t..];
      EstimateMonotone(value[..h] + marker, value[t - 1], value[t..]);
    }
  }

  lemma {:induction false} CutMonotone(value: string, marker: string, kept: nat, more: nat)
    requires kept <= more <= |value|
    ensures Estimate(Cut(value, marker, kept)) <= Estimate(Cut(value, marker, more))
    decreases more
  {
    hide Estimate, Cut, Head;
    if kept < more {
      CutMonotone(value, marker, kept, more - 1);
      CutGrows(value, marker, more - 1);
    }
  }

  // ---------------------------------------------------------------------------------------------
  // The search
  // ---------------------------------------------------------------------------------------------

  /** So many characters fit exactly when no more than `kept`. */
  predicate IsMost(value: string, marker: string, maxTokens: int, kept: nat)
    requires kept <= |value|
  {
    forall k :: 0 <= k <= |value| ==> (Estimate(Cut(value, marker, k)) <= maxTokens <==> k <= kept)
  }

  /**
    compactText keeps a head and a tail that do not meet. Whenever the marker alone fits, so does the result, and
    one character more would not; otherwise nothing fits, and the marker is all there is.
   */
  method CompactText(value: string, maxTokens: int) returns (text: string, kept: nat)
    ensures kept <= |value| && text == Cut(value, Marker(value), kept)
    ensures exists head: nat :: IsCompacted(text, value, Marker(value), kept, head)
    ensures Estimate(Marker(value)) <= maxTokens ==> Estimate(text) <= maxTokens && IsMost(value, Marker(value), maxTokens, kept)
    ensures Estimate(Marker(value)) > maxTokens ==>
      text == Marker(value) && forall k :: 0 <= k <= |value| ==> Estimate(Cut(value, Marker(value), k)) > maxTokens
  {
    var marker := Marker(value);
    hide Marker, Estimate;
    assert Cut(value, marker, 0) == marker;
    var low, high := 0, |value|;
    while low < high
      invariant 0 <= low <= high <= |value|
      invariant low > 0 ==> Estimate(Cut(value, marker, low)) <= maxTokens
      invariant high < |value| ==> Estimate(Cut(value, marker, high + 1)) > maxTokens
    {
      var mid := (low + high + 1) / 2;
      var tokens := EstimateTokens(Cut(value, marker, mid));
      if tokens <= maxTokens { low := mid; } else { high := mid - 1; }
    }
    kept := low;
    text := Cut(value, marker, kept);
    SearchEnds(value, marker, maxTokens, kept);
    CutIsCompacted(value, marker, kept);
  }

  lemma SearchEnds(value: string, marker: string, maxTokens: int, kept: nat)
    requires kept <= |value|
    requires kept > 0 ==> Estimate(Cut(value, marker, kept)) <= maxTokens
    requires kept < |value| ==> Estimate(Cut(value, marker, kept + 1)) > maxTokens
    ensures Estimate(Cut(value, marker, 0)) <= maxTokens ==> IsMost(value, marker, maxTokens, kept)
    ensures Estimate(Cut(value, marker, 0)) > maxTokens ==>
      kept == 0 && forall k :: 0 <= k <= |value| ==> Estimate(Cut(value, marker, k)) > maxTokens
  {
    hide Estimate, Cut;
    forall k | 0 <= k <= |value|
      ensures k > kept ==> Estimate(Cut(value, marker, k)) > maxTokens
      ensures k <= kept ==> Estimate(Cut(value, marker, k)) <= Estimate(Cut(value, marker, kept))
      ensures Estimate(Cut(value, marker, 0)) <= Estimate(Cut(value, marker, k))
    {
      CutMonotone(value, marker, 0, k);
      if k > kept { CutMonotone(value, marker, kept + 1, k); } else { CutMonotone(value, marker, k, kept); }
    }
  }
}
