/** The few string operations of the Go standard library that the kernel relies on. */
module Text {

  /** The code points with Unicode's White_Space property, the set Go's unicode.IsSpace tests. */
  predicate IsSpace(c: char) {
    '\t' <= c <= '\r' || c == ' ' || c == '\U{0085}' || c == '\U{00A0}' || c == '\U{1680}'
    || '\U{2000}' <= c <= '\U{200A}' || c == '\U{2028}' || c == '\U{2029}' || c == '\U{202F}'
    || c == '\U{205F}' || c == '\U{3000}'
  }

  function TrimLeft(s: string): string {
    if s != "" && IsSpace(s[0]) then TrimLeft(s[1..]) else s
  }

  function TrimRight(s: string): string {
    if s != "" && IsSpace(s[|s| - 1]) then TrimRight(s[..|s| - 1]) else s
  }

  /** strings.TrimSpace */
  function TrimSpace(s: string): string {
    TrimRight(TrimLeft(s))
  }

  ghost predicate AllSpace(s: string) {
    forall i :: 0 <= i < |s| ==> IsSpace(s[i])
  }

  /** The text is t with space around it, and t has none at its ends. */
  ghost predicate Trims(s: string, before: string, t: string, after: string) {
    && s == before + t + after && AllSpace(before) && AllSpace(after)
    && (t == "" || (!IsSpace(t[0]) && !IsSpace(t[|t| - 1])))
  }

  /** Every text is its trimmed text with space around it, and no other text is its trimmed text. */
  lemma TrimmedExactly(s: string, t: string)
    ensures TrimSpace(s) == t <==> exists before, after :: Trims(s, before, t, after)
  {
    hide TrimLeft, TrimRight, IsSpace;
    var before := LeftOf(s);
    var after := RightOf(TrimLeft(s));
    assert Trims(s, before, TrimSpace(s), after);
    if before, after :| Trims(s, before, t, after) {
      if t == "" {
        AllIsTrimmed(s);
      } else {
        LeftIsTrimmed(before, t + after);
        RightIsTrimmed(t, after);
        assert s == before + (t + after);
      }
    }
  }

  lemma {:induction false} LeftOf(s: string) returns (before: string)
    ensures s == before + TrimLeft(s) && AllSpace(before)
    ensures TrimLeft(s) == "" || !IsSpace(TrimLeft(s)[0])
  {
    before := "";
    if s != "" && IsSpace(s[0]) {
      var rest := LeftOf(s[1..]);
      before := [s[0]] + rest;
    }
  }

  lemma {:induction false} RightOf(s: string) returns (after: string)
    ensures s == TrimRight(s) + after && AllSpace(after)
    ensures TrimRight(s) == "" || (!IsSpace(TrimRight(s)[|TrimRight(s)| - 1]) && TrimRight(s)[0] == s[0])
  {
    after := "";
    if s != "" && IsSpace(s[|s| - 1]) {
      var rest := RightOf(s[..|s| - 1]);
      after := rest + [s[|s| - 1]];
    }
  }

  lemma {:induction false} AllIsTrimmed(s: string)
    requires AllSpace(s)
    ensures TrimLeft(s) == ""
  {
    if s != "" {
      AllIsTrimmed(s[1..]);
    }
  }

  lemma {:induction false} LeftIsTrimmed(before: string, rest: string)
    requires AllSpace(before) && rest != "" && !IsSpace(rest[0])
    ensures TrimLeft(before + rest) == rest
  {
    if before == "" {
      assert before + rest == rest;
    } else {
      assert (before + rest)[1..] == before[1..] + rest;
      LeftIsTrimmed(before[1..], rest);
    }
  }

  lemma {:induction false} RightIsTrimmed(t: string, after: string)
    requires t != "" && !IsSpace(t[|t| - 1]) && AllSpace(after)
    ensures TrimRight(t + after) == t
  {
    if after == "" {
      assert t + after == t;
    } else {
      assert (t + after)[..|t + after| - 1] == t + after[..|after| - 1];
      RightIsTrimmed(t, after[..|after| - 1]);
    }
  }

  /** A number in decimal digits. */
  function Decimal(n: nat): string {
    var digit := ['0' + (n % 10) as char];
    if n < 10 then digit else Decimal(n / 10) + digit
  }
}
