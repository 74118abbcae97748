/**
  Reference-counted semaphores kept in a map and deleted when nobody uses them: the conversation writers of
  the run controller (one slot each) and the owners of the model limiter (a few slots each, bounded waiting).

  A user looks its entry up once and keeps the pointer, so the danger is an entry deleted and created again
  under a user that still counts on the old one. Each function below is one step the source takes atomically,
  under its mutex or on a channel; any number of users interleave them.
 */
module KeyedSlots {
  import opened Results
  import opened Totals

  /** Slots per entry, and how many users an entry admits at once, if that is bounded. */
  datatype Limits = Limits(slots: nat, admitted: Option<nat>)

  datatype Entry = Entry(refs: int, held: int)

  datatype Phase = Waiting | Holding | Leaving

  /** A user between looking its entry up and returning its reference. */
  datatype User = User(key: string, entry: nat, phase: Phase)

  /** `heap` holds every entry ever created, numbered below `next`; `entries` the ones the map names now. */
  datatype State = State(entries: map<string, nat>, heap: map<nat, Entry>, users: map<nat, User>, next: nat)

  const EMPTY := State(map[], map[], map[], 0)

  ghost function Members(s: State, entry: nat): set<nat> {
    set p | p in s.users && s.users[p].entry == entry
  }

  ghost function Holders(s: State, entry: nat): set<nat> {
    set p | p in s.users && s.users[p].entry == entry && s.users[p].phase.Holding?
  }

  // ---------------------------------------------------------------------------------------------
  // Steps
  // ---------------------------------------------------------------------------------------------

  /** The entry the map names for the key, created if there is none. */
  function Lookup(s: State, key: string): State {
    if key in s.entries then s
    else s.(entries := s.entries[key := s.next], heap := s.heap[s.next := Entry(0, 0)], next := s.next + 1)
  }

  predicate Full(s: State, limits: Limits, key: string)
    requires key in s.entries && s.entries[key] in s.heap
  {
    limits.admitted.Some? && s.heap[s.entries[key]].refs >= limits.admitted.value
  }

  /** Looks the entry up and counts the user in, unless the entry is full. */
  function Enter(s: State, limits: Limits, p: nat, key: string): (State, bool)
    requires key in s.entries ==> s.entries[key] in s.heap
  {
    var found := Lookup(s, key);
    var id := found.entries[key];
    if Full(found, limits, key) then (found, false)
    else
      (found.(heap := found.heap[id := found.heap[id].(refs := found.heap[id].refs + 1)],
              users := found.users[p := User(key, id, Waiting)]), true)
  }

  function WithPhase(s: State, p: nat, phase: Phase): map<nat, User>
    requires p in s.users
  {
    s.users[p := s.users[p].(phase := phase)]
  }

  predicate CanTake(s: State, limits: Limits, p: nat) {
    p in s.users && s.users[p].phase.Waiting? && s.users[p].entry in s.heap && s.heap[s.users[p].entry].held < limits.slots
  }

  /** Puts a token into the entry's channel. */
  function Take(s: State, limits: Limits, p: nat): State
    requires CanTake(s, limits, p)
  {
    var id := s.users[p].entry;
    s.(heap := s.heap[id := s.heap[id].(held := s.heap[id].held + 1)], users := WithPhase(s, p, Holding))
  }

  /** The wait ends with its context. */
  function GiveUp(s: State, p: nat): State
    requires p in s.users && s.users[p].phase.Waiting?
  {
    s.(users := WithPhase(s, p, Leaving))
  }

  /** Takes the token out again. */
  function Drop(s: State, p: nat): State
    requires p in s.users && s.users[p].phase.Holding? && s.users[p].entry in s.heap
  {
    var id := s.users[p].entry;
    s.(heap := s.heap[id := s.heap[id].(held := s.heap[id].held - 1)], users := WithPhase(s, p, Leaving))
  }

  /** releaseRef: counts the user out and deletes the key's entry, whichever it is, at zero references. */
  function Leave(s: State, p: nat): State
    requires p in s.users && s.users[p].phase.Leaving? && s.users[p].entry in s.heap
  {
    var id := s.users[p].entry;
    var refs := s.heap[id].refs - 1;
    s.(heap := s.heap[id := s.heap[id].(refs := refs)],
       entries := if refs == 0 then s.entries - {s.users[p].key} else s.entries,
       users := s.users - {p})
  }

  // ---------------------------------------------------------------------------------------------
  // The entry-identity invariant
  // ---------------------------------------------------------------------------------------------

  /** Every user counts on the entry the map names for its key. */
  ghost predicate Current(s: State) {
    forall p :: p in s.users ==> s.users[p].key in s.entries && s.entries[s.users[p].key] == s.users[p].entry
  }

  ghost predicate Distinct(s: State) {
    && (forall k :: k in s.entries ==> s.entries[k] in s.heap)
    && (forall k, l :: k in s.entries && l in s.entries && s.entries[k] == s.entries[l] ==> k == l)
    && (forall id :: id in s.heap ==> id < s.next)
  }

  /** An entry's counters are what they stand for, within the limits, and it is named only while it is used. */
  ghost predicate Counted(s: State, limits: Limits, id: nat) {
    && id in s.heap
    && s.heap[id].refs == |Members(s, id)| && s.heap[id].held == |Holders(s, id)|
    && 0 <= s.heap[id].held <= limits.slots
    && (limits.admitted.Some? ==> s.heap[id].refs <= limits.admitted.value)
  }

  ghost predicate Inv(s: State, limits: Limits) {
    && Current(s) && Distinct(s)
    && (forall k :: k in s.entries ==> Used(s, limits, s.entries[k]))
  }

  ghost predicate Used(s: State, limits: Limits, id: nat) {
    Counted(s, limits, id) && s.heap[id].refs > 0
  }

  lemma EmptyIsInv(limits: Limits)
    ensures Inv(EMPTY, limits)
  {
  }

  /** One user's change of phase leaves every other entry's users as they were. */
  lemma OneUserChanges(s: State, t: State, p: nat)
    requires p in s.users && t.users.Keys == s.users.Keys
    requires t.users[p].entry == s.users[p].entry
    requires forall q :: q in s.users && q != p ==> t.users[q] == s.users[q]
    ensures forall id :: Members(t, id) == Members(s, id)
    ensures forall id :: id != s.users[p].entry ==> Holders(t, id) == Holders(s, id)
    ensures |Holders(t, s.users[p].entry)| - (if t.users[p].phase.Holding? then 1 else 0)
      == |Holders(s, s.users[p].entry)| - (if s.users[p].phase.Holding? then 1 else 0)
  {
    var id := s.users[p].entry;
    var others := Holders(s, id) - {p};
    assert Holders(s, id) == if s.users[p].phase.Holding? then others + {p} else others;
    assert Holders(t, id) == if t.users[p].phase.Holding? then others + {p} else others;
  }

  /** An entry whose users, holders and counters stayed the same is still used. */
  lemma StillUsed(s: State, t: State, limits: Limits, id: nat)
    requires Used(s, limits, id) && id in t.heap && t.heap[id] == s.heap[id]
    requires Members(t, id) == Members(s, id) && Holders(t, id) == Holders(s, id)
    ensures Used(t, limits, id)
  {
  }

  lemma LookupKeeps(s: State, limits: Limits, key: string)
    requires Inv(s, limits)
    ensures var f := Lookup(s, key);
      && Current(f) && Distinct(f) && key in f.entries && f.users == s.users
      && Counted(f, limits, f.entries[key])
      && (forall k :: k in f.entries && k != key ==> Used(f, limits, f.entries[k]))
  {
    var f := Lookup(s, key);
    if key !in s.entries {
      forall q | q in s.users ensures s.users[q].entry < s.next {
        assert s.entries[s.users[q].key] in s.heap;
      }
      assert Members(f, s.next) == {} && Holders(f, s.next) == {};
      forall k | k in f.entries && k != key ensures Used(f, limits, f.entries[k]) {
        assert Members(f, f.entries[k]) == Members(s, f.entries[k]) && Holders(f, f.entries[k]) == Holders(s, f.entries[k]);
        StillUsed(s, f, limits, s.entries[k]);
      }
    }
  }

  /** The user just counted in is a member of its own entry alone. */
  lemma OneUserJoins(s: State, t: State, p: nat)
    requires p !in s.users && p in t.users && t.users == s.users[p := t.users[p]] && t.users[p].phase.Waiting?
    ensures forall id :: Holders(t, id) == Holders(s, id)
    ensures forall id :: id != t.users[p].entry ==> Members(t, id) == Members(s, id)
    ensures |Members(t, t.users[p].entry)| == |Members(s, t.users[p].entry)| + 1
  {
    var id := t.users[p].entry;
    assert p !in Members(s, id) && Members(t, id) == Members(s, id) + {p};
  }

  lemma OneUserLeaves(s: State, t: State, p: nat)
    requires p in s.users && t.users == s.users - {p} && s.users[p].phase.Leaving?
    ensures forall id :: Holders(t, id) == Holders(s, id)
    ensures forall id :: id != s.users[p].entry ==> Members(t, id) == Members(s, id)
    ensures |Members(t, s.users[p].entry)| == |Members(s, s.users[p].entry)| - 1
    ensures forall q :: q in t.users && t.users[q].entry == s.users[p].entry ==> |Members(t, s.users[p].entry)| > 0
  {
    var id := s.users[p].entry;
    assert p in Members(s, id) && Members(t, id) == Members(s, id) - {p};
    forall q | q in t.users && t.users[q].entry == id ensures |Members(t, id)| > 0 {
      assert q in Members(t, id);
    }
  }

  lemma EnterIsCurrent(s: State, limits: Limits, p: nat, key: string)
    requires Current(s) && (key in s.entries ==> s.entries[key] in s.heap)
    ensures Current(Enter(s, limits, p, key).0)
  {
  }

  lemma EnterKeepsInv(s: State, limits: Limits, p: nat, key: string)
    requires Inv(s, limits) && p !in s.users && (limits.admitted.Some? ==> limits.admitted.value > 0)
    ensures Inv(Enter(s, limits, p, key).0, limits)
    ensures !Enter(s, limits, p, key).1 ==> Enter(s, limits, p, key).0 == s
    ensures Enter(s, limits, p, key).1 ==>
      var t := Enter(s, limits, p, key).0;
      p in t.users && t.users == s.users[p := t.users[p]] && t.users[p].key == key && t.users[p].phase.Waiting?
  {
    hide Members, Holders, Current;
    LookupKeeps(s, limits, key);
    var f := Lookup(s, key);
    var (t, entered) := Enter(s, limits, p, key);
    if entered {
      var id := f.entries[key];
      OneUserJoins(f, t, p);
      assert Current(t) by { EnterIsCurrent(s, limits, p, key); }
      assert Used(t, limits, id);
      forall k | k in t.entries && k != key ensures Used(t, limits, t.entries[k]) {
        StillUsed(f, t, limits, f.entries[k]);
      }
    }
  }

  /** A change of one user's phase and of its entry's tokens, never of references. */
  lemma PhaseKeepsInv(s: State, t: State, limits: Limits, p: nat)
    requires Inv(s, limits) && p in s.users && t.next == s.next && t.entries == s.entries
    requires p in t.users && t.users == WithPhase(s, p, t.users[p].phase)
    requires s.users[p].entry in s.heap && s.users[p].entry in t.heap
    requires t.heap == s.heap[s.users[p].entry := s.heap[s.users[p].entry].(held := t.heap[s.users[p].entry].held)]
    requires 0 <= t.heap[s.users[p].entry].held <= limits.slots
    requires t.heap[s.users[p].entry].held - (if t.users[p].phase.Holding? then 1 else 0)
      == s.heap[s.users[p].entry].held - (if s.users[p].phase.Holding? then 1 else 0)
    ensures Inv(t, limits)
  {
    hide Members, Holders;
    var id := s.users[p].entry;
    OneUserChanges(s, t, p);
    assert Used(s, limits, s.entries[s.users[p].key]);
    assert Used(t, limits, id);
    forall k | k in t.entries ensures Used(t, limits, t.entries[k]) {
      if k != s.users[p].key { StillUsed(s, t, limits, s.entries[k]); }
    }
  }

  lemma TakeKeepsInv(s: State, limits: Limits, p: nat)
    requires Inv(s, limits) && CanTake(s, limits, p)
    ensures Inv(Take(s, limits, p), limits)
  {
    PhaseKeepsInv(s, Take(s, limits, p), limits, p);
  }

  lemma GiveUpKeepsInv(s: State, limits: Limits, p: nat)
    requires Inv(s, limits) && p in s.users && s.users[p].phase.Waiting?
    ensures Inv(GiveUp(s, p), limits)
  {
    EntryIsKnown(s, limits, p);
    PhaseKeepsInv(s, GiveUp(s, p), limits, p);
  }

  /** A user's entry exists, counts the user, and is the one its key names: releaseRef never goes below zero. */
  lemma EntryIsKnown(s: State, limits: Limits, p: nat)
    requires Inv(s, limits) && p in s.users
    ensures s.users[p].entry in s.heap && s.heap[s.users[p].entry].refs > 0
    ensures s.users[p].phase.Holding? ==> s.heap[s.users[p].entry].held > 0
  {
    assert Used(s, limits, s.entries[s.users[p].key]);
    if s.users[p].phase.Holding? { assert p in Holders(s, s.users[p].entry); }
  }

  lemma DropKeepsInv(s: State, limits: Limits, p: nat)
    requires Inv(s, limits) && p in s.users && s.users[p].phase.Holding?
    ensures s.users[p].entry in s.heap && Inv(Drop(s, p), limits)
  {
    EntryIsKnown(s, limits, p);
    assert Used(s, limits, s.entries[s.users[p].key]);
    PhaseKeepsInv(s, Drop(s, p), limits, p);
  }

  lemma LeaveKeepsInv(s: State, limits: Limits, p: nat)
    requires Inv(s, limits) && p in s.users && s.users[p].phase.Leaving?
    ensures s.users[p].entry in s.heap && Inv(Leave(s, p), limits) && Leave(s, p).users == s.users - {p}
  {
    hide Members, Holders;
    EntryIsKnown(s, limits, p);
    var key, id, t := s.users[p].key, s.users[p].entry, Leave(s, p);
    OneUserLeaves(s, t, p);
    assert Used(s, limits, s.entries[key]);
    forall q | q in t.users ensures t.users[q].key in t.entries && t.entries[t.users[q].key] == t.users[q].entry {
      assert s.users[q].key in s.entries;
    }
    forall k | k in t.entries ensures Used(t, limits, t.entries[k]) {
      if k != key { StillUsed(s, t, limits, s.entries[k]); }
    }
  }

  // ---------------------------------------------------------------------------------------------
  // What the invariant gives
  // ---------------------------------------------------------------------------------------------

  function UsersOf(s: State, key: string): set<nat> {
    set p | p in s.users && s.users[p].key == key
  }

  function HoldersOf(s: State, key: string): set<nat> {
    set p | p in s.users && s.users[p].key == key && s.users[p].phase.Holding?
  }

  /** However entries are deleted and created again, a key's users are within its limits, and its holders within its slots. */
  lemma KeyIsBounded(s: State, limits: Limits, key: string)
    requires Inv(s, limits)
    ensures |HoldersOf(s, key)| <= limits.slots
    ensures limits.admitted.Some? ==> |UsersOf(s, key)| <= limits.admitted.value
    ensures key in s.entries <==> UsersOf(s, key) != {}
    ensures key in s.entries ==> s.entries[key] in s.heap && s.heap[s.entries[key]] == Entry(|UsersOf(s, key)|, |HoldersOf(s, key)|)
  {
    if key in s.entries {
      var id := s.entries[key];
      assert Used(s, limits, id);
      SameUsers(s, limits, key);
    } else {
      assert UsersOf(s, key) == {} && HoldersOf(s, key) == {};
    }
  }

  lemma SameUsers(s: State, limits: Limits, key: string)
    requires Inv(s, limits) && key in s.entries
    ensures UsersOf(s, key) == Members(s, s.entries[key]) && HoldersOf(s, key) == Holders(s, s.entries[key])
  {
    forall p | p in Members(s, s.entries[key]) ensures s.users[p].key == key {
      assert s.entries[s.users[p].key] == s.entries[key];
    }
  }

  /** With one slot, two holders of a key are one. */
  lemma SingleHolder(s: State, limits: Limits, p: nat, q: nat)
    requires Inv(s, limits) && limits.slots == 1
    requires p in s.users && q in s.users && s.users[p].key == s.users[q].key
    requires s.users[p].phase.Holding? && s.users[q].phase.Holding?
    ensures p == q
  {
    KeyIsBounded(s, limits, s.users[p].key);
    var hs := HoldersOf(s, s.users[p].key);
    if p != q {
      assert {p, q} <= hs;
      SubsetSize({p, q}, hs);
    }
  }

  /** The map is empty exactly when nobody is inside. */
  lemma EmptyExactly(s: State, limits: Limits)
    requires Inv(s, limits)
    ensures s.entries == map[] <==> s.users == map[]
  {
    if s.entries != map[] {
      var k :| k in s.entries;
      KeyIsBounded(s, limits, k);
      var p :| p in UsersOf(s, k);
      assert p in s.users;
    }
    if s.users != map[] {
      var p :| p in s.users;
      assert s.users[p].key in s.entries;
    }
  }

  /** A key with waiting users and nobody holding or leaving lets one in: a free slot is never lost. */
  lemma FreeSlot(s: State, limits: Limits, p: nat)
    requires Inv(s, limits) && limits.slots > 0 && p in s.users && s.users[p].phase.Waiting?
    requires HoldersOf(s, s.users[p].key) == {}
    ensures CanTake(s, limits, p)
  {
    KeyIsBounded(s, limits, s.users[p].key);
  }

  /** A newcomer is counted in exactly if its key has room for one more, and can then take a slot at once exactly if one is free. */
  lemma RoomToEnter(s: State, limits: Limits, p: nat, key: string)
    requires Inv(s, limits) && p !in s.users
    ensures key in s.entries ==> s.entries[key] in s.heap
    ensures Enter(s, limits, p, key).1 <==> (limits.admitted.Some? ==> |UsersOf(s, key)| < limits.admitted.value)
    ensures Enter(s, limits, p, key).1 ==> (CanTake(Enter(s, limits, p, key).0, limits, p) <==> |HoldersOf(s, key)| < limits.slots)
  {
    KeyIsBounded(s, limits, key);
    if key !in s.entries { assert HoldersOf(s, key) <= UsersOf(s, key); }
    hide Inv, HoldersOf, UsersOf;
  }
}
