/**
  Usage logs that the runtime's invariant check accepts, and what their ledgers keep: the totals of a log do not
  depend on its order, and grow entry by entry as a reservation adds and its settlement replaces it.
 */
module UsageLog {
  import opened Results
  import opened Costs
  import opened Ledger

  datatype Failure = DuplicateEntry(operation: string, kind: Kind) | DuplicateSettlement(operation: string) | SettlementWithoutReservation(operation: string)

  function KindName(kind: Kind): string {
    match kind
    case ModelReservation => "model.reservation"
    case ModelSettlement => "model.settlement"
    case ToolExecution => "tool.execution"
    case OtherKind(name) => name
  }

  /** Another kind is named differently, and not with the separator of the check's keys. */
  predicate Proper(kind: Kind) {
    kind.OtherKind? ==> kind.name !in {"model.reservation", "model.settlement", "tool.execution"} && '\0' !in kind.name
  }

  predicate AllProper(entries: seq<Entry>) {
    forall i :: 0 <= i < |entries| ==> Proper(entries[i].kind)
  }

  predicate SameKey(a: Entry, b: Entry) { a.operation == b.operation && a.kind == b.kind }

  predicate Unique(entries: seq<Entry>) {
    forall i, j :: 0 <= i < j < |entries| ==> !SameKey(entries[i], entries[j])
  }

  /** HasUsageReservation. */
  predicate HasReservation(entries: seq<Entry>, operation: string) {
    exists i :: 0 <= i < |entries| && entries[i].kind == ModelReservation && entries[i].operation == operation
  }

  predicate SettledAreReserved(entries: seq<Entry>) {
    forall i :: 0 <= i < |entries| && entries[i].kind == ModelSettlement ==> HasReservation(entries, entries[i].operation)
  }

  predicate WellFormed(entries: seq<Entry>) { Unique(entries) && SettledAreReserved(entries) }

  // ---------------------------------------------------------------------------------------------
  // The check
  // ---------------------------------------------------------------------------------------------

  function Key(e: Entry): string { e.operation + "\0" + KindName(e.kind) }

  lemma LastNul(a: string, n: string, k: nat)
    requires '\0' !in n && k < |a + "\0" + n| && (a + "\0" + n)[k] == '\0'
    ensures k <= |a|
  {
    var s := a + "\0" + n;
    forall i | |a| < i < |s| ensures s[i] != '\0' { assert s[i] == n[i - |a| - 1]; }
  }

  lemma TailAfterNul(a: string, n: string, b: string, m: string)
    requires a + "\0" + n == b + "\0" + m && '\0' !in n && '\0' !in m
    ensures a == b && n == m
  {
    var s, t := a + "\0" + n, b + "\0" + m;
    assert s[|a|] == '\0' && t[|b|] == '\0';
    LastNul(a, n, |b|);
    LastNul(b, m, |a|);
    assert a == s[..|a|] && b == t[..|b|];
    assert n == s[|a| + 1..] && m == t[|b| + 1..];
  }

  /** The key separates its parts: no operation id, whatever it contains, runs into the kind. */
  lemma KeysAgreeExactly(a: Entry, b: Entry)
    requires Proper(a.kind) && Proper(b.kind)
    ensures Key(a) == Key(b) <==> SameKey(a, b)
  {
    if Key(a) == Key(b) {
      assert '\0' !in KindName(a.kind) && '\0' !in KindName(b.kind);
      TailAfterNul(a.operation, KindName(a.kind), b.operation, KindName(b.kind));
    }
  }

  predicate DistinctKeys(entries: seq<Entry>) {
    forall i, j :: 0 <= i < j < |entries| ==> Key(entries[i]) != Key(entries[j])
  }

  predicate KeySeen(entries: seq<Entry>, e: Entry) {
    exists k :: 0 <= k < |entries| && Key(entries[k]) == Key(e)
  }

  /** A failure for every entry whose key came before. */
  function DuplicatesOf(entries: seq<Entry>): seq<Failure>
    decreases |entries|
  {
    if entries == [] then []
    else
      var rest, last := entries[..|entries| - 1], entries[|entries| - 1];
      DuplicatesOf(rest) + (if !KeySeen(rest, last) then []
                            else [if last.kind == ModelSettlement then DuplicateSettlement(last.operation) else DuplicateEntry(last.operation, last.kind)])
  }

  /** A failure for every settlement without a reservation anywhere in the log. */
  function OrphansOf(entries: seq<Entry>, log: seq<Entry>): seq<Failure>
    decreases |entries|
  {
    if entries == [] then []
    else
      var rest, last := entries[..|entries| - 1], entries[|entries| - 1];
      OrphansOf(rest, log) + (if last.kind == ModelSettlement && !HasReservation(log, last.operation) then [SettlementWithoutReservation(last.operation)] else [])
  }

  /** CheckRuntimeInvariants: it finds nothing exactly on well-formed logs. */
  method CheckRuntimeInvariants(entries: seq<Entry>) returns (failures: seq<Failure>)
    ensures failures == [] ==> WellFormed(entries)
    ensures AllProper(entries) ==> (failures == [] <==> WellFormed(entries))
    ensures failures == DuplicatesOf(entries) + OrphansOf(entries, entries)
  {
    hide Key, HasReservation;
    var reservations;
    failures, reservations := FindDuplicates(entries);
    ghost var duplicates := failures;
    assert duplicates + [] == duplicates;
    for i := 0 to |entries|
      invariant failures == [] <==> DistinctKeys(entries) && ReservedBelow(entries, i)
      invariant failures == duplicates + OrphansOf(entries[..i], entries)
    {
      assert entries[..i + 1][..i] == entries[..i];
      if entries[i].kind == ModelSettlement && entries[i].operation !in reservations {
        failures := failures + [SettlementWithoutReservation(entries[i].operation)];
      }
    }
    assert entries[..|entries|] == entries;
    DistinctIsUnique(entries);
  }

  predicate ReservedBelow(entries: seq<Entry>, i: nat)
    requires i <= |entries|
  {
    forall k :: 0 <= k < i && entries[k].kind == ModelSettlement ==> HasReservation(entries, entries[k].operation)
  }

  method FindDuplicates(entries: seq<Entry>) returns (failures: seq<Failure>, reservations: set<string>)
    ensures failures == [] <==> DistinctKeys(entries)
    ensures forall operation :: operation in reservations <==> HasReservation(entries, operation)
    ensures failures == DuplicatesOf(entries)
  {
    hide Key, HasReservation, DistinctKeys;
    var seen: map<string, Entry> := map[];
    failures, reservations := [], {};
    NothingYet();
    for i := 0 to |entries|
      invariant forall key :: key in seen <==> exists k :: 0 <= k < i && Key(entries[k]) == key
      invariant forall operation :: operation in reservations <==> HasReservation(entries[..i], operation)
      invariant failures == [] <==> DistinctKeys(entries[..i])
      invariant failures == DuplicatesOf(entries[..i])
    {
      var item := entries[i];
      assert entries[..i + 1][..i] == entries[..i];
      assert KeySeen(entries[..i], item) <==> exists k :: 0 <= k < i && Key(entries[k]) == Key(item) by {
        assert forall k :: 0 <= k < i ==> entries[..i][k] == entries[k];
      }
      assert entries[..i + 1] == entries[..i] + [item];
      SeenIsDistinct(entries, i);
      if Key(item) in seen {
        failures := failures + [if item.kind == ModelSettlement then DuplicateSettlement(item.operation) else DuplicateEntry(item.operation, item.kind)];
      } else {
        seen := seen[Key(item) := item];
      }
      ReservationSeen(entries[..i], item);
      if item.kind == ModelReservation { reservations := reservations + {item.operation}; }
    }
    assert entries[..|entries|] == entries;
  }

  lemma NothingYet()
    ensures DistinctKeys([]) && forall operation :: !HasReservation([], operation)
  {
  }

  lemma SeenIsDistinct(entries: seq<Entry>, i: nat)
    requires i < |entries|
    ensures DistinctKeys(entries[..i + 1]) <==> DistinctKeys(entries[..i]) && !exists k :: 0 <= k < i && Key(entries[k]) == Key(entries[i])
  {
    var longer, shorter := entries[..i + 1], entries[..i];
    assert forall k :: 0 <= k < i ==> longer[k] == shorter[k] == entries[k];
    if DistinctKeys(longer) {
      forall k | 0 <= k < i ensures Key(entries[k]) != Key(entries[i]) { assert Key(longer[k]) != Key(longer[i]); }
    }
  }

  predicate IsReservation(e: Entry, operation: string) { e.kind == ModelReservation && e.operation == operation }

  lemma ReservationSeen(entries: seq<Entry>, e: Entry)
    ensures forall operation :: HasReservation(entries + [e], operation) <==> (HasReservation(entries, operation) || IsReservation(e, operation))
  {
    var longer := entries + [e];
    assert longer[|entries|] == e && forall k :: 0 <= k < |entries| ==> longer[k] == entries[k];
    forall operation | HasReservation(entries, operation) ensures HasReservation(longer, operation) {
      var k :| 0 <= k < |entries| && entries[k].kind == ModelReservation && entries[k].operation == operation;
      assert longer[k] == entries[k];
    }
  }

  lemma DistinctIsUnique(entries: seq<Entry>)
    ensures DistinctKeys(entries) ==> Unique(entries)
    ensures AllProper(entries) ==> (DistinctKeys(entries) <==> Unique(entries))
  {
    hide Key, SameKey;
    forall i, j | 0 <= i < j < |entries|
      ensures SameKey(entries[i], entries[j]) ==> Key(entries[i]) == Key(entries[j])
      ensures AllProper(entries) && Key(entries[i]) == Key(entries[j]) ==> SameKey(entries[i], entries[j])
    {
      SameKeySame(entries[i], entries[j]);
      if AllProper(entries) { KeysAgreeExactly(entries[i], entries[j]); }
    }
  }

  lemma SameKeySame(a: Entry, b: Entry)
    ensures SameKey(a, b) ==> Key(a) == Key(b)
  {
  }

  // ---------------------------------------------------------------------------------------------
  // Order
  // ---------------------------------------------------------------------------------------------

  function Without(entries: seq<Entry>, i: nat): seq<Entry>
    requires i < |entries|
  {
    entries[..i] + entries[i + 1..]
  }

  function ToolPart(e: Entry): Sums {
    if e.kind.ToolExecution? then Amount(e) else ZERO
  }

  function Later(t: Option<int>, timestamp: int): Option<int> {
    if t.None? || timestamp > t.value then Some(timestamp) else t
  }

  lemma {:induction false} RemoveOne(entries: seq<Entry>, i: nat)
    requires i < |entries|
    ensures ToolSum(entries) == Plus(ToolSum(Without(entries, i)), ToolPart(entries[i]))
    ensures LatestTime(entries) == Later(LatestTime(Without(entries, i)), entries[i].timestamp)
    decreases |entries|
  {
    var rest, last := entries[..|entries| - 1], entries[|entries| - 1];
    if i == |rest| {
      assert Without(entries, i) == rest;
    } else {
      RemoveOne(rest, i);
      var w := Without(entries, i);
      assert w[..|w| - 1] == Without(rest, i) && w[|w| - 1] == last;
      PlusSwaps(ToolSum(Without(rest, i)), ToolPart(entries[i]), ToolPart(last));
      PlusSwaps(ToolSum(Without(rest, i)), ToolPart(last), ToolPart(entries[i]));
      PlusSwaps(ToolPart(last), ToolPart(entries[i]), ZERO);
    }
  }

  lemma WithoutIs(entries: seq<Entry>, i: nat)
    requires i < |entries|
    ensures multiset(Without(entries, i)) == multiset(entries) - multiset{entries[i]}
    ensures forall e :: e in entries <==> e in Without(entries, i) || e == entries[i]
    ensures Unique(entries) ==> Unique(Without(entries, i)) && forall e :: e in Without(entries, i) ==> !SameKey(e, entries[i])
  {
    var w := Without(entries, i);
    assert entries == entries[..i] + [entries[i]] + entries[i + 1..];
    assert forall k :: 0 <= k < |w| ==> w[k] == entries[if k < i then k else k + 1];
    if Unique(entries) {
      forall e | e in w ensures !SameKey(e, entries[i]) {
        var k :| 0 <= k < |w| && w[k] == e;
        assert e == entries[if k < i then k else k + 1];
      }
    }
  }

  /** One log in two orders. */
  lemma {:induction false} Reordered(p: seq<Entry>, q: seq<Entry>)
    requires multiset(p) == multiset(q) && Unique(p)
    ensures Unique(q) && ToolSum(p) == ToolSum(q) && LatestTime(p) == LatestTime(q)
    decreases |p|
  {
    hide ToolSum, LatestTime, Without, Unique;
    assert |multiset(p)| == |p| && |multiset(q)| == |q|;
    if q == [] {
      assert p == q;
    } else {
      var i := Position(p, q);
      WithoutIs(p, i);
      WithoutIs(q, |q| - 1);
      Reordered(Without(p, i), Without(q, |q| - 1));
      RemoveOne(p, i);
      RemoveOne(q, |q| - 1);
      SameMembers(Without(p, i), Without(q, |q| - 1));
      LastBack(q);
    }
  }

  lemma Position(p: seq<Entry>, q: seq<Entry>) returns (i: nat)
    requires multiset(p) == multiset(q) && q != []
    ensures i < |p| && p[i] == q[|q| - 1]
  {
    assert q[|q| - 1] in multiset(q);
    assert q[|q| - 1] in p;
    i :| 0 <= i < |p| && p[i] == q[|q| - 1];
  }

  predicate NoneLike(entries: seq<Entry>, e: Entry) {
    forall x :: x in entries ==> !SameKey(x, e)
  }

  lemma LastBack(q: seq<Entry>)
    requires q != [] && Unique(Without(q, |q| - 1)) && NoneLike(Without(q, |q| - 1), q[|q| - 1])
    ensures Unique(q)
  {
    var e := q[|q| - 1];
    assert Without(q, |q| - 1) == q[..|q| - 1];
    assert q == Without(q, |q| - 1) + [e];
    OneMoreIsUnique(Without(q, |q| - 1), e);
  }

  lemma SameMembers(p: seq<Entry>, q: seq<Entry>)
    requires multiset(p) == multiset(q)
    ensures forall e :: e in p <==> e in q
  {
    forall e ensures e in p <==> e in q {
      assert e in p <==> e in multiset(p);
      assert e in q <==> e in multiset(q);
    }
  }

  lemma OneMoreIsUnique(entries: seq<Entry>, e: Entry)
    ensures Unique(entries + [e]) <==> Unique(entries) && forall x :: x in entries ==> !SameKey(x, e)
  {
    var longer := entries + [e];
    assert longer[|entries|] == e && forall k :: 0 <= k < |entries| ==> longer[k] == entries[k];
    if Unique(longer) {
      forall x | x in entries ensures !SameKey(x, e) {
        var k :| 0 <= k < |entries| && entries[k] == x;
        assert !SameKey(longer[k], longer[|entries|]);
      }
      forall i, j | 0 <= i < j < |entries| ensures !SameKey(entries[i], entries[j]) {
        assert !SameKey(longer[i], longer[j]);
      }
    }
  }

  lemma UniqueIsOne(entries: seq<Entry>, a: Entry, b: Entry)
    requires Unique(entries) && a in entries && b in entries && SameKey(a, b)
    ensures a == b
  {
    var i :| 0 <= i < |entries| && entries[i] == a;
    var j :| 0 <= j < |entries| && entries[j] == b;
    assert SameKey(entries[j], entries[i]);
  }

  lemma LatestIgnoresOrder(p: seq<Entry>, q: seq<Entry>, kind: Kind)
    requires Unique(p) && forall e :: e in p <==> e in q
    ensures Latest(p, kind) == Latest(q, kind)
  {
    var l, m := Latest(p, kind), Latest(q, kind);
    forall operation ensures operation in l <==> operation in m {
      LatestIsAnEntry(p, kind, operation);
      LatestIsAnEntry(q, kind, operation);
    }
    forall operation | operation in l ensures l[operation] == m[operation] {
      LatestIsAnEntry(p, kind, operation);
      LatestIsAnEntry(q, kind, operation);
      UniqueIsOne(p, l[operation], m[operation]);
    }
  }

  /** However an accepted log is ordered, it is accepted and its ledger has the same totals. */
  lemma TotalsIgnoreOrder(p: seq<Entry>, q: seq<Entry>)
    requires multiset(p) == multiset(q) && WellFormed(p)
    ensures WellFormed(q) && Exact(p) == Exact(q) && LatestTime(p) == LatestTime(q)
  {
    Reordered(p, q);
    SameMembers(p, q);
    LatestIgnoresOrder(p, q, ModelReservation);
    LatestIgnoresOrder(p, q, ModelSettlement);
    forall i | 0 <= i < |q| && q[i].kind == ModelSettlement ensures HasReservation(q, q[i].operation) {
      assert q[i] in p;
      var k :| 0 <= k < |p| && p[k] == q[i];
      var j :| 0 <= j < |p| && p[j].kind == ModelReservation && p[j].operation == p[k].operation;
      assert p[j] in q;
    }
  }

  lemma LaterReservationCounts(a: Entry, b: Entry)
    requires a.kind == ModelReservation == b.kind && a.operation == b.operation
    ensures Exact([a, b]) == Plus(Amount(b), OPEN) && !WellFormed([a, b])
  {
    var o := a.operation;
    LatestOfTwo(a, b);
    assert SameKey([a, b][0], [a, b][1]);
    var r := Latest([a, b], ModelReservation);
    hide Latest, SumOver, Amount, ToolSum, WellFormed;
    assert Parts(r, map[], r.Keys) == map[][o := Plus(Amount(b), OPEN)];
    SumWith(map[], o, Plus(Amount(b), OPEN));
    EmptySum();
  }

  lemma EmptySum()
    ensures SumOver(map[]) == ZERO
  {
  }

  lemma LatestOfTwo(a: Entry, b: Entry)
    requires a.kind == ModelReservation == b.kind && a.operation == b.operation
    ensures Latest([a, b], ModelReservation) == map[a.operation := b] && Latest([a, b], ModelSettlement) == map[]
    ensures ToolSum([a, b]) == ZERO
  {
    hide Latest, ToolSum, Amount;
    LatestOfOne(a);
    assert [a, b] == [a] + [b];
    LatestGrows([a], b, ModelReservation);
    LatestGrows([a], b, ModelSettlement);
  }

  lemma LatestOfOne(a: Entry)
    requires a.kind == ModelReservation
    ensures Latest([a], ModelReservation) == map[a.operation := a] && Latest([a], ModelSettlement) == map[] && ToolSum([a]) == ZERO
  {
    hide Latest, ToolSum, Amount;
    NothingIn();
    assert [a] == [] + [a];
    LatestGrows([], a, ModelReservation);
    LatestGrows([], a, ModelSettlement);
  }

  lemma NothingIn()
    ensures forall kind :: Latest([], kind) == map[]
    ensures ToolSum([]) == ZERO
  {
  }

  /** In a log the check refuses, order can matter: of two reservations of one operation, the later counts. */
  lemma OrderMattersWithDuplicates(a: Entry, b: Entry)
    requires a.kind == ModelReservation && b == a.(prompt := a.prompt + 1)
    ensures Exact([a, b]).prompt == Exact([b, a]).prompt + 1 && !WellFormed([a, b])
  {
    LaterReservationCounts(a, b);
    LaterReservationCounts(b, a);
    hide Exact;
  }

  // ---------------------------------------------------------------------------------------------
  // Growth
  // ---------------------------------------------------------------------------------------------

  lemma Prefix(entries: seq<Entry>, e: Entry)
    requires WellFormed(entries + [e])
    ensures Unique(entries) && forall x :: x in entries ==> !SameKey(x, e)
    ensures e.kind != ModelReservation ==> WellFormed(entries)
  {
    OneMoreIsUnique(entries, e);
    if e.kind != ModelReservation {
      forall i | 0 <= i < |entries| && entries[i].kind == ModelSettlement ensures HasReservation(entries, entries[i].operation) {
        assert (entries + [e])[i] == entries[i];
        ReservationSeen(entries, e);
      }
    }
  }

  lemma LatestGrows(entries: seq<Entry>, e: Entry, kind: Kind)
    ensures Latest(entries + [e], kind) == if e.kind == kind then Latest(entries, kind)[e.operation := e] else Latest(entries, kind)
    ensures ToolSum(entries + [e]) == Plus(ToolSum(entries), ToolPart(e))
  {
    assert (entries + [e])[..|entries|] == entries;
  }

  /**
    What an entry changes in an accepted log: a tool call adds, a reservation adds and opens, and a settlement
    takes its reservation's place and closes it.
   */
  lemma LogGrowsBy(entries: seq<Entry>, e: Entry)
    requires WellFormed(entries) && WellFormed(entries + [e])
    ensures e.kind.ModelSettlement? ==> e.operation in Latest(entries, ModelReservation)
    ensures Exact(entries + [e]) == match e.kind
      case ToolExecution => Plus(Exact(entries), Amount(e))
      case ModelReservation => Plus(Exact(entries), Plus(Amount(e), OPEN))
      case ModelSettlement => Plus(Minus(Exact(entries), Plus(Amount(Latest(entries, ModelReservation)[e.operation]), OPEN)), Amount(e))
      case OtherKind(_) => Exact(entries)
  {
    hide WellFormed, SumOver, Parts, Latest, ToolSum, Amount;
    LatestGrows(entries, e, ModelReservation);
    LatestGrows(entries, e, ModelSettlement);
    var r, s := Latest(entries, ModelReservation), Latest(entries, ModelSettlement);
    var tools, sum := ToolSum(entries), SumOver(Parts(r, s, r.Keys));
    match e.kind
    case ModelReservation =>
      ReservationAdds(entries, e, r, s);
      PlusSwaps(tools, Plus(Amount(e), OPEN), sum);
      PlusSwaps(Plus(Amount(e), OPEN), tools, sum);
    case ModelSettlement => SettlementReplaces(entries, e, r, s);
    case ToolExecution => PlusSwaps(tools, Amount(e), sum); PlusSwaps(tools, sum, Amount(e)); PlusSwaps(Amount(e), sum, tools);
    case OtherKind(_) =>
  }

  lemma SettledIsReserved(entries: seq<Entry>, operation: string)
    requires SettledAreReserved(entries)
    ensures operation in Latest(entries, ModelSettlement) ==> operation in Latest(entries, ModelReservation)
  {
    LatestIsAnEntry(entries, ModelReservation, operation);
    LatestIsAnEntry(entries, ModelSettlement, operation);
    if operation in Latest(entries, ModelSettlement) {
      var i :| 0 <= i < |entries| && entries[i] == Latest(entries, ModelSettlement)[operation];
      assert HasReservation(entries, operation);
    }
  }

  lemma ReservationAdds(entries: seq<Entry>, e: Entry, r: map<string, Entry>, s: map<string, Entry>)
    requires WellFormed(entries) && WellFormed(entries + [e]) && e.kind.ModelReservation?
    requires r == Latest(entries, ModelReservation) && s == Latest(entries, ModelSettlement)
    ensures SumOver(Parts(r[e.operation := e], s, r[e.operation := e].Keys)) == Plus(Plus(Amount(e), OPEN), SumOver(Parts(r, s, r.Keys)))
  {
    var o, grown := e.operation, r[e.operation := e];
    Prefix(entries, e);
    LatestIsAnEntry(entries, ModelReservation, o);
    SettledIsReserved(entries, o);
    assert Parts(grown, s, grown.Keys) == Parts(r, s, r.Keys)[o := Plus(Amount(e), OPEN)];
    SumWith(Parts(r, s, r.Keys), o, Plus(Amount(e), OPEN));
  }

  lemma SettlementReplaces(entries: seq<Entry>, e: Entry, r: map<string, Entry>, s: map<string, Entry>)
    requires WellFormed(entries) && WellFormed(entries + [e]) && e.kind.ModelSettlement?
    requires r == Latest(entries, ModelReservation) && s == Latest(entries, ModelSettlement)
    ensures e.operation in r && e.operation !in s
    ensures SumOver(Parts(r, s[e.operation := e], r.Keys))
      == Plus(Minus(SumOver(Parts(r, s, r.Keys)), Plus(Amount(r[e.operation]), OPEN)), Amount(e))
  {
    var o, before, after := e.operation, Parts(r, s, r.Keys), Parts(r, s[e.operation := e], r.Keys);
    Prefix(entries, e);
    LatestIsAnEntry(entries, ModelReservation, o);
    LatestIsAnEntry(entries, ModelSettlement, o);
    assert (entries + [e])[|entries|] == e;
    ReservationSeen(entries, e);
    assert HasReservation(entries, o);
    assert o in r && o !in s;
    assert before[o] == Plus(Amount(r[o]), OPEN) && after[o] == Amount(e);
    hide WellFormed, SumOver, Latest, Amount;
    assert before - {o} == after - {o};
    hide Parts;
    SumWithout(before, o);
    SumWithout(after, o);
  }
}
