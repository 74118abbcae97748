/**
  Observing a run: up to four streams, each asked to go on after the last event seen. What is delivered is in
  order and never twice; and against a server that numbers its events without gaps, nothing is missed.
 */
module RunObserver {
  import opened Results
  import opened EventStream
  import opened RunStream

  /** What a frame's JSON text turns out to be; `Live` says whether it is a state of the run, and if it stops it. */
  datatype Payload = Unreadable | Output | Failure(denied: bool) | Live(state: Option<bool>)

  /** A snapshot's JSON text: whether the run has stopped, if it can be read. */
  datatype Readers = Readers(payload: string -> Payload, snapshot: string -> Option<bool>)

  datatype Delivery = EventDelivered(sequence: nat, replayed: bool) | OutputDelivered(sequence: nat) | SnapshotDelivered(sequence: nat)
  {
    predicate Numbered() { !SnapshotDelivered? && sequence > 0 }
  }

  datatype Thrown = BadJson | AccessDenied

  datatype Observed = Observed(cursor: nat, delivered: seq<Delivery>, snapshotReceived: bool, stopped: bool, failed: bool)

  function Advanced(cursor: nat, id: nat): nat { if id > cursor then id else cursor }

  /** One frame. The cursor moves before the text is read. */
  function Handle(o: Observed, frame: Frame, readers: Readers): (Observed, Option<Thrown>) {
    var moved := o.(cursor := Advanced(o.cursor, frame.id));
    if frame.event == "run.snapshot" then
      match readers.snapshot(frame.data)
      case None => (moved, Some(BadJson))
      case Some(stopped) =>
        (moved.(delivered := o.delivered + [SnapshotDelivered(frame.id)], snapshotReceived := true, stopped := stopped), None)
    else if frame.id > 0 && frame.id <= o.cursor then (o, None)
    else
      match readers.payload(frame.data)
      case Unreadable => (moved, Some(BadJson))
      case Output => (moved.(delivered := o.delivered + [OutputDelivered(frame.id)]), None)
      case Failure(denied) => if denied then (moved, Some(AccessDenied)) else (moved.(failed := true), None)
      case Live(state) =>
        var seen := moved.(delivered := o.delivered + [EventDelivered(frame.id, !o.snapshotReceived)]);
        (if state.Some? then seen.(stopped := state.value) else seen, None)
  }

  /** Frames in turn, up to one that throws. */
  function HandleAll(o: Observed, frames: seq<Frame>, readers: Readers): (Observed, Option<Thrown>)
    decreases |frames|
  {
    if frames == [] then (o, None)
    else
      var (next, thrown) := Handle(o, frames[0], readers);
      if thrown.Some? then (next, thrown) else HandleAll(next, frames[1..], readers)
  }

  // ---------------------------------------------------------------------------------------------
  // Order
  // ---------------------------------------------------------------------------------------------

  /** A numbered delivery comes after the start, and after everything delivered before it, snapshots included. */
  predicate InOrder(start: nat, cursor: nat, delivered: seq<Delivery>) {
    && start <= cursor
    && (forall i :: 0 <= i < |delivered| ==> delivered[i].sequence <= cursor)
    && (forall j :: 0 <= j < |delivered| && delivered[j].Numbered() ==> delivered[j].sequence > start)
    && (forall i, j :: 0 <= i < j < |delivered| && delivered[j].Numbered() ==> delivered[i].sequence < delivered[j].sequence)
  }

  lemma HandleKeepsOrder(start: nat, o: Observed, frame: Frame, readers: Readers)
    requires InOrder(start, o.cursor, o.delivered)
    ensures var next := Handle(o, frame, readers).0;
      InOrder(start, next.cursor, next.delivered) && o.cursor <= next.cursor && o.delivered <= next.delivered
  {
    var next := Handle(o, frame, readers).0;
    hide InOrder;
    if next.delivered == o.delivered {
      CursorMoves(start, o.cursor, next.cursor, o.delivered);
    } else {
      var last := next.delivered[|next.delivered| - 1];
      assert next.delivered == o.delivered + [last];
      OneMoreInOrder(start, o.cursor, next.cursor, o.delivered, last);
    }
  }

  lemma CursorMoves(start: nat, cursor: nat, further: nat, delivered: seq<Delivery>)
    requires InOrder(start, cursor, delivered) && cursor <= further
    ensures InOrder(start, further, delivered)
  {
  }

  lemma OneMoreInOrder(start: nat, cursor: nat, further: nat, delivered: seq<Delivery>, d: Delivery)
    requires InOrder(start, cursor, delivered) && cursor <= further && d.sequence <= further && (d.Numbered() ==> d.sequence > cursor)
    ensures InOrder(start, further, delivered + [d])
  {
    var longer := delivered + [d];
    assert longer[|delivered|] == d && forall k :: 0 <= k < |delivered| ==> longer[k] == delivered[k];
  }

  lemma {:induction false} FramesKeepOrder(start: nat, o: Observed, frames: seq<Frame>, readers: Readers)
    requires InOrder(start, o.cursor, o.delivered)
    ensures var next := HandleAll(o, frames, readers).0;
      InOrder(start, next.cursor, next.delivered) && o.cursor <= next.cursor && o.delivered <= next.delivered
    decreases |frames|
  {
    if frames != [] {
      HandleKeepsOrder(start, o, frames[0], readers);
      FramesKeepOrder(start, Handle(o, frames[0], readers).0, frames[1..], readers);
    }
  }

  // ---------------------------------------------------------------------------------------------
  // What the frames of a stream say
  // ---------------------------------------------------------------------------------------------

  /** The highest number seen: the cursor at the start, or that of a frame. */
  ghost function Highest(cursor: nat, frames: seq<Frame>): nat {
    if frames == [] then cursor
    else
      var before, last := Highest(cursor, frames[..|frames| - 1]), frames[|frames| - 1].id;
      if last > before then last else before
  }

  /** An event that was seen already. */
  ghost predicate Passed(cursor: nat, frame: Frame) {
    frame.event != "run.snapshot" && 0 < frame.id <= cursor
  }

  /** What a frame that is not passed over throws. */
  ghost function Throwing(cursor: nat, frame: Frame, readers: Readers): Option<Thrown> {
    if frame.event == "run.snapshot" then if readers.snapshot(frame.data).None? then Some(BadJson) else None
    else if Passed(cursor, frame) then None
    else if readers.payload(frame.data).Unreadable? then Some(BadJson)
    else if readers.payload(frame.data) == Failure(true) then Some(AccessDenied)
    else None
  }

  /** Whether a frame says that the run has stopped, or goes on, if it says anything of its state. */
  ghost function Said(cursor: nat, frame: Frame, readers: Readers): Option<bool> {
    if frame.event == "run.snapshot" then readers.snapshot(frame.data)
    else if Passed(cursor, frame) || !readers.payload(frame.data).Live? then None
    else readers.payload(frame.data).state
  }

  /** What a frame delivers; an event is a replay as long as no snapshot has come in the same stream. */
  ghost function Shown(cursor: nat, frame: Frame, snapshotSeen: bool, readers: Readers): seq<Delivery> {
    if frame.event == "run.snapshot" then [SnapshotDelivered(frame.id)]
    else if Passed(cursor, frame) then []
    else if readers.payload(frame.data).Output? then [OutputDelivered(frame.id)]
    else if readers.payload(frame.data).Live? then [EventDelivered(frame.id, !snapshotSeen)]
    else []
  }

  ghost predicate HasSnapshot(frames: seq<Frame>) {
    exists i :: 0 <= i < |frames| && frames[i].event == "run.snapshot"
  }

  ghost function AllShown(cursor: nat, frames: seq<Frame>, snapshotSeen: bool, readers: Readers): seq<Delivery> {
    if frames == [] then []
    else
      var before, last := frames[..|frames| - 1], frames[|frames| - 1];
      AllShown(cursor, before, snapshotSeen, readers) + Shown(Highest(cursor, before), last, snapshotSeen || HasSnapshot(before), readers)
  }

  ghost function ThrowsAt(cursor: nat, frames: seq<Frame>, i: nat, readers: Readers): Option<Thrown>
    requires i < |frames|
  {
    Throwing(Highest(cursor, frames[..i]), frames[i], readers)
  }

  ghost function SaidAt(cursor: nat, frames: seq<Frame>, i: nat, readers: Readers): Option<bool>
    requires i < |frames|
  {
    Said(Highest(cursor, frames[..i]), frames[i], readers)
  }

  ghost predicate Quiet(cursor: nat, frames: seq<Frame>, readers: Readers) {
    forall i :: 0 <= i < |frames| ==> ThrowsAt(cursor, frames, i, readers).None?
  }

  /** The frame is the last to say anything of the run's state, and says that it has stopped. */
  ghost predicate LastSaysStopped(cursor: nat, frames: seq<Frame>, i: nat, readers: Readers) {
    && i < |frames| && SaidAt(cursor, frames, i, readers) == Some(true)
    && forall j :: i < j < |frames| ==> SaidAt(cursor, frames, j, readers).None?
  }

  ghost predicate SaysNothing(cursor: nat, frames: seq<Frame>, readers: Readers) {
    forall i :: 0 <= i < |frames| ==> SaidAt(cursor, frames, i, readers).None?
  }

  /** The frame throws, and none before it does. */
  ghost predicate FirstThrows(cursor: nat, frames: seq<Frame>, i: nat, thrown: Thrown, readers: Readers) {
    && i < |frames| && ThrowsAt(cursor, frames, i, readers) == Some(thrown)
    && forall j :: 0 <= j < i ==> ThrowsAt(cursor, frames, j, readers).None?
  }

  lemma FrameExactly(o: Observed, frame: Frame, readers: Readers)
    ensures var (next, thrown) := Handle(o, frame, readers);
      && thrown == Throwing(o.cursor, frame, readers)
      && next.cursor == (if frame.id > o.cursor then frame.id else o.cursor)
      && next.delivered == o.delivered + (if thrown.Some? then [] else Shown(o.cursor, frame, o.snapshotReceived, readers))
      && (thrown.None? ==>
            && next.snapshotReceived == (o.snapshotReceived || frame.event == "run.snapshot")
            && next.stopped == (if Said(o.cursor, frame, readers).Some? then Said(o.cursor, frame, readers).value else o.stopped))
  {
  }

  lemma {:induction false} HandleSplits(o: Observed, frames: seq<Frame>, i: nat, readers: Readers)
    requires i <= |frames| && HandleAll(o, frames[..i], readers).1.None?
    ensures HandleAll(o, frames, readers) == HandleAll(HandleAll(o, frames[..i], readers).0, frames[i..], readers)
    decreases i
  {
    hide Handle;
    if i == 0 {
      assert frames[0..] == frames;
    } else {
      assert frames[..i][0] == frames[0] && frames[..i][1..] == frames[1..][..i - 1] && frames[i..] == frames[1..][i - 1..];
      HandleSplits(Handle(o, frames[0], readers).0, frames[1..], i - 1, readers);
    }
  }

  lemma HandleOne(o: Observed, frames: seq<Frame>, readers: Readers)
    requires |frames| > 0 && (Handle(o, frames[0], readers).1.Some? || |frames| == 1)
    ensures HandleAll(o, frames, readers) == Handle(o, frames[0], readers)
  {
    hide Handle;
  }

  lemma QuietBefore(cursor: nat, frames: seq<Frame>, n: nat, readers: Readers)
    requires n <= |frames|
    ensures forall i :: 0 <= i < n ==> ThrowsAt(cursor, frames[..n], i, readers) == ThrowsAt(cursor, frames, i, readers)
    ensures forall i :: 0 <= i < n ==> SaidAt(cursor, frames[..n], i, readers) == SaidAt(cursor, frames, i, readers)
  {
    assert forall i :: 0 <= i < n ==> frames[..n][..i] == frames[..i];
  }

  /** What an observer knows after frames none of which threw: exactly what they say. */
  ghost predicate Knows(o: Observed, frames: seq<Frame>, next: Observed, readers: Readers) {
    && next.cursor == Highest(o.cursor, frames)
    && next.snapshotReceived == (o.snapshotReceived || HasSnapshot(frames))
    && next.delivered == o.delivered + AllShown(o.cursor, frames, o.snapshotReceived, readers)
    && (next.stopped <==> (exists i: nat :: LastSaysStopped(o.cursor, frames, i, readers)) || (o.stopped && SaysNothing(o.cursor, frames, readers)))
  }

  lemma {:induction false} QuietExactly(o: Observed, frames: seq<Frame>, readers: Readers)
    requires Quiet(o.cursor, frames, readers)
    ensures HandleAll(o, frames, readers).1.None? && Knows(o, frames, HandleAll(o, frames, readers).0, readers)
  {
    if frames == [] {
    } else {
      hide Handle, Throwing, Said, Shown, Knows;
      var n := |frames| - 1;
      var before := frames[..n];
      QuietBefore(o.cursor, frames, n, readers);
      QuietExactly(o, before, readers);
      HandleSplits(o, frames, n, readers);
      var middle := HandleAll(o, before, readers).0;
      HandleOne(middle, frames[n..], readers);
      assert ThrowsAt(o.cursor, frames, n, readers).None?;
      KnowsOneMore(o, frames, middle, readers);
    }
  }

  lemma KnowsOneMore(o: Observed, frames: seq<Frame>, middle: Observed, readers: Readers)
    requires frames != [] && Knows(o, frames[..|frames| - 1], middle, readers)
    requires Throwing(Highest(o.cursor, frames[..|frames| - 1]), frames[|frames| - 1], readers).None?
    ensures var (next, thrown) := Handle(middle, frames[|frames| - 1], readers); thrown.None? && Knows(o, frames, next, readers)
  {
    hide Handle, Throwing, Said, Shown, SaysNothing, LastSaysStopped;
    FrameExactly(middle, frames[|frames| - 1], readers);
    SaidUpTo(o.cursor, frames, readers);
  }

  /** The last word is the last frame's, or the last word before it. */
  lemma SaidUpTo(cursor: nat, frames: seq<Frame>, readers: Readers)
    requires frames != []
    ensures var n, before := |frames| - 1, frames[..|frames| - 1];
      && (SaysNothing(cursor, frames, readers) <==> SaidAt(cursor, frames, n, readers).None? && SaysNothing(cursor, before, readers))
      && ((exists i: nat :: LastSaysStopped(cursor, frames, i, readers)) <==>
            SaidAt(cursor, frames, n, readers) == Some(true)
            || (SaidAt(cursor, frames, n, readers).None? && exists i: nat :: LastSaysStopped(cursor, before, i, readers)))
  {
    hide SaidAt;
    var n, before := |frames| - 1, frames[..|frames| - 1];
    QuietBefore(cursor, frames, n, readers);
    if SaidAt(cursor, frames, n, readers) == Some(true) { assert LastSaysStopped(cursor, frames, n, readers); }
    if i: nat :| LastSaysStopped(cursor, before, i, readers) && SaidAt(cursor, frames, n, readers).None? {
      assert LastSaysStopped(cursor, frames, i, readers);
    }
    if i: nat :| LastSaysStopped(cursor, frames, i, readers) && i < n {
      assert LastSaysStopped(cursor, before, i, readers);
    }
  }

  /** Frames one of which throws: the first that does ends them, its number seen and nothing of it delivered. */
  lemma ThrowExactly(o: Observed, frames: seq<Frame>, i: nat, reason: Thrown, readers: Readers)
    requires FirstThrows(o.cursor, frames, i, reason, readers)
    ensures var (next, thrown) := HandleAll(o, frames, readers);
      && thrown == Some(reason) && next.cursor == Highest(o.cursor, frames[..i + 1])
      && next.delivered == o.delivered + AllShown(o.cursor, frames[..i], o.snapshotReceived, readers)
  {
    hide Handle, Throwing, Said, Shown;
    QuietBefore(o.cursor, frames, i, readers);
    QuietExactly(o, frames[..i], readers);
    HandleSplits(o, frames, i, readers);
    var middle := HandleAll(o, frames[..i], readers).0;
    FrameExactly(middle, frames[i], readers);
    HandleOne(middle, frames[i..], readers);
    assert frames[..i + 1][..i] == frames[..i];
  }

  lemma FindThrow(cursor: nat, frames: seq<Frame>, readers: Readers) returns (i: nat, reason: Thrown)
    requires !Quiet(cursor, frames, readers)
    ensures FirstThrows(cursor, frames, i, reason, readers)
  {
    i := 0;
    while ThrowsAt(cursor, frames, i, readers).None?
      invariant i < |frames| && exists k :: i <= k < |frames| && ThrowsAt(cursor, frames, k, readers).Some?
      invariant forall j :: 0 <= j < i ==> ThrowsAt(cursor, frames, j, readers).None?
      decreases |frames| - i
    {
      i := i + 1;
    }
    reason := ThrowsAt(cursor, frames, i, readers).value;
  }

  // ---------------------------------------------------------------------------------------------
  // The observer
  // ---------------------------------------------------------------------------------------------

  /**
    What happens to one attempt: refused, or a stream in chunks that ends or breaks off with an error; and when the
    caller's signal is raised.
   */
  datatype Attempt = Attempt(abortedBefore: bool, refused: Option<bool>, chunks: seq<string>, broken: bool, abortedAfter: bool)

  datatype Outcome = Stopped | Aborted | Denied | GaveUp

  /** One attempt; nothing when the next is to be made. */
  ghost function AttemptOnce(o: Observed, a: Attempt, readers: Readers): (Observed, Option<Outcome>) {
    var anew := o.(snapshotReceived := false, stopped := false, failed := false);
    if a.refused.Some? then (anew, if a.abortedAfter then Some(Aborted) else if !a.refused.value then Some(Denied) else None)
    else
      var (after, thrown) := HandleAll(anew, FramesOf(ReadAll(a.chunks).0), readers);
      (after, if thrown.None? && !a.broken && after.stopped then Some(Stopped) else if a.abortedAfter then Some(Aborted)
              else if thrown == Some(AccessDenied) then Some(Denied) else None)
  }

  /** The attempts from the n-th on: each asks to go on after the cursor, and the fourth is the last. */
  ghost function AttemptFrom(o: Observed, attempts: seq<Attempt>, n: nat, readers: Readers): (Observed, Outcome, seq<nat>)
    requires n < 4 <= |attempts|
    decreases 4 - n
  {
    if attempts[n].abortedBefore then (o, Aborted, [])
    else
      var (after, outcome) := AttemptOnce(o, attempts[n], readers);
      if outcome.Some? then (after, outcome.value, [o.cursor])
      else if n == 3 then (after, GaveUp, [o.cursor])
      else
        var (last, result, requests) := AttemptFrom(after, attempts, n + 1, readers);
        (last, result, [o.cursor] + requests)
  }

  lemma AttemptKeepsOrder(start: nat, o: Observed, a: Attempt, readers: Readers)
    requires InOrder(start, o.cursor, o.delivered)
    ensures var next := AttemptOnce(o, a, readers).0;
      InOrder(start, next.cursor, next.delivered) && o.cursor <= next.cursor && o.delivered <= next.delivered
  {
    FramesKeepOrder(start, o.(snapshotReceived := false, stopped := false, failed := false), FramesOf(ReadAll(a.chunks).0), readers);
  }

  /** A request asks for what comes after everything delivered before it, and requests never go back. */
  ghost predicate Forward(requests: seq<nat>, low: nat, high: nat) {
    && (forall k :: 0 <= k < |requests| ==> low <= requests[k] <= high)
    && (forall k, l :: 0 <= k < l < |requests| ==> requests[k] <= requests[l])
  }

  /**
    Over all attempts of one observation, deliveries are in order, there are at most four requests, and they only
    ever move forward.
   */
  lemma {:induction false} AttemptsKeepOrder(start: nat, o: Observed, attempts: seq<Attempt>, n: nat, readers: Readers)
    requires n < 4 <= |attempts| && InOrder(start, o.cursor, o.delivered)
    ensures var (last, outcome, requests) := AttemptFrom(o, attempts, n, readers);
      && InOrder(start, last.cursor, last.delivered) && o.delivered <= last.delivered && o.cursor <= last.cursor
      && |requests| <= 4 - n && Forward(requests, o.cursor, last.cursor)
      && (outcome.Stopped? ==> last.stopped) && (outcome.GaveUp? ==> |requests| == 4 - n)
    decreases 4 - n
  {
    hide InOrder, AttemptOnce;
    AttemptKeepsOrder(start, o, attempts[n], readers);
    OnlyWhenStopped(o, attempts[n], readers);
    var (after, outcome) := AttemptOnce(o, attempts[n], readers);
    if !attempts[n].abortedBefore && outcome.None? && n < 3 {
      AttemptsKeepOrder(start, after, attempts, n + 1, readers);
    }
  }

  lemma OnlyWhenStopped(o: Observed, a: Attempt, readers: Readers)
    ensures AttemptOnce(o, a, readers).1 == Some(Stopped) ==> AttemptOnce(o, a, readers).0.stopped
    ensures AttemptOnce(o, a, readers).1 != Some(GaveUp)
  {
  }

  // ---------------------------------------------------------------------------------------------
  // How an observation ends, told by its frames
  // ---------------------------------------------------------------------------------------------

  ghost function FramesIn(a: Attempt): seq<Frame> { FramesOf(ReadAll(a.chunks).0) }

  /** An accepted stream, read to its end, whose last word on the run is that it has stopped. */
  ghost predicate Stops(cursor: nat, a: Attempt, readers: Readers) {
    && a.refused.None? && !a.broken && Quiet(cursor, FramesIn(a), readers)
    && exists i: nat :: LastSaysStopped(cursor, FramesIn(a), i, readers)
  }

  /** The request was refused for good, or the stream took the access back. */
  ghost predicate Denies(cursor: nat, a: Attempt, readers: Readers) {
    a.refused == Some(false) || (a.refused.None? && exists i: nat :: FirstThrows(cursor, FramesIn(a), i, AccessDenied, readers))
  }

  /** How an attempt ends the observation, if it does. */
  ghost function Ends(cursor: nat, a: Attempt, readers: Readers): Option<Outcome> {
    if Stops(cursor, a, readers) then Some(Stopped)
    else if a.abortedAfter then Some(Aborted)
    else if Denies(cursor, a, readers) then Some(Denied)
    else None
  }

  /** The next attempt asks to go on after the highest number seen: of all frames, or up to the first that threw. */
  ghost predicate LeadsTo(cursor: nat, a: Attempt, next: nat, readers: Readers) {
    && (a.refused.Some? ==> next == cursor)
    && (a.refused.None? && Quiet(cursor, FramesIn(a), readers) ==> next == Highest(cursor, FramesIn(a)))
    && forall i: nat, thrown :: a.refused.None? && FirstThrows(cursor, FramesIn(a), i, thrown, readers) ==>
         next == Highest(cursor, FramesIn(a)[..i + 1])
  }

  lemma ThrowExists(cursor: nat, frames: seq<Frame>, readers: Readers)
    requires !Quiet(cursor, frames, readers)
    ensures exists i: nat, thrown :: FirstThrows(cursor, frames, i, thrown, readers)
  {
    var i, thrown := FindThrow(cursor, frames, readers);
  }

  /** The frames of an attempt that are handled to the end: all of them, or those before the first that throws. */
  ghost function HandledIn(cursor: nat, a: Attempt, readers: Readers): seq<Frame> {
    if a.refused.Some? then []
    else if Quiet(cursor, FramesIn(a), readers) then FramesIn(a)
    else
      ThrowExists(cursor, FramesIn(a), readers);
      var i: nat, thrown :| FirstThrows(cursor, FramesIn(a), i, thrown, readers);
      FramesIn(a)[..i]
  }

  /** Everything the attempts deliver, one after the other. */
  ghost function DeliveredBy(requests: seq<nat>, attempts: seq<Attempt>, n: nat, readers: Readers): seq<Delivery>
    requires n + |requests| <= |attempts|
  {
    if requests == [] then []
    else AllShown(requests[0], HandledIn(requests[0], attempts[n], readers), false, readers) + DeliveredBy(requests[1..], attempts, n + 1, readers)
  }

  lemma OneFirst(cursor: nat, frames: seq<Frame>, i: nat, a: Thrown, j: nat, b: Thrown, readers: Readers)
    requires FirstThrows(cursor, frames, i, a, readers) && FirstThrows(cursor, frames, j, b, readers)
    ensures i == j && a == b && !Quiet(cursor, frames, readers)
  {
    hide ThrowsAt;
  }

  lemma AttemptExactly(o: Observed, a: Attempt, readers: Readers)
    ensures AttemptOnce(o, a, readers).1 == Ends(o.cursor, a, readers)
    ensures LeadsTo(o.cursor, a, AttemptOnce(o, a, readers).0.cursor, readers)
    ensures AttemptOnce(o, a, readers).0.delivered == o.delivered + AllShown(o.cursor, HandledIn(o.cursor, a, readers), false, readers)
  {
    hide Handle, HandleAll, LastSaysStopped, FirstThrows, ReadAll, FramesOf, ThrowsAt;
    if a.refused.None? {
      var anew, frames := o.(snapshotReceived := false, stopped := false, failed := false), FramesIn(a);
      if Quiet(o.cursor, frames, readers) {
        QuietExactly(anew, frames, readers);
        forall i: nat, thrown | FirstThrows(o.cursor, frames, i, thrown, readers) ensures false {
          OneFirst(o.cursor, frames, i, thrown, i, thrown, readers);
        }
      } else {
        var i, reason := FindThrow(o.cursor, frames, readers);
        ThrowExactly(anew, frames, i, reason, readers);
        forall j: nat, thrown | FirstThrows(o.cursor, frames, j, thrown, readers) ensures j == i && thrown == reason {
          OneFirst(o.cursor, frames, i, reason, j, thrown, readers);
        }
      }
    }
  }

  /**
    An observation from its requests: each asks to go on where the attempt before it left off, every attempt but
    the last leaves it open, and the last ends it, unless the caller does, or four have been made.
   */
  ghost predicate Told(cursor: nat, attempts: seq<Attempt>, n: nat, outcome: Outcome, requests: seq<nat>, readers: Readers)
    requires n <= 4 <= |attempts|
  {
    var made := |requests|;
    && n + made <= 4 && (made > 0 ==> requests[0] == cursor)
    && (forall m :: n <= m < n + made ==> !attempts[m].abortedBefore)
    && (forall k :: 0 <= k < made - 1 ==>
          Ends(requests[k], attempts[n + k], readers).None? && LeadsTo(requests[k], attempts[n + k], requests[k + 1], readers))
    && var last := if made == 0 then None else Ends(requests[made - 1], attempts[n + made - 1], readers);
       if last.Some? then outcome == last.value
       else if n + made == 4 then outcome == GaveUp
       else outcome == Aborted && attempts[n + made].abortedBefore
  }

  lemma {:induction false} ObservationExactly(o: Observed, attempts: seq<Attempt>, n: nat, readers: Readers)
    requires n < 4 <= |attempts|
    ensures var (last, outcome, requests) := AttemptFrom(o, attempts, n, readers);
      Told(o.cursor, attempts, n, outcome, requests, readers) && last.delivered == o.delivered + DeliveredBy(requests, attempts, n, readers)
    decreases 4 - n
  {
    hide AttemptOnce, Ends, LeadsTo, HandledIn, AllShown;
    var (after, outcome) := AttemptOnce(o, attempts[n], readers);
    AttemptExactly(o, attempts[n], readers);
    if !attempts[n].abortedBefore && outcome.None? && n < 3 {
      ObservationExactly(after, attempts, n + 1, readers);
    }
  }

  /** A stream whose last word is that the run has stopped ends the observation, with no further request; nothing else is a stop. */
  lemma StoppedExactly(cursor: nat, attempts: seq<Attempt>, outcome: Outcome, requests: seq<nat>, readers: Readers)
    requires |attempts| >= 4 && Told(cursor, attempts, 0, outcome, requests, readers)
    ensures outcome.Stopped? <==> exists k :: 0 <= k < |requests| && Stops(requests[k], attempts[k], readers)
    ensures forall k :: 0 <= k < |requests| && Stops(requests[k], attempts[k], readers) ==> |requests| == k + 1
  {
    hide Stops, Denies, LeadsTo;
    forall k | 0 <= k < |requests| && Stops(requests[k], attempts[k], readers) ensures k == |requests| - 1 {
      assert Ends(requests[k], attempts[0 + k], readers).Some?;
    }
  }

  class Observer {
    const readers: Readers
    var cursor: nat
    var delivered: seq<Delivery>
    var snapshotReceived: bool
    var stopped: bool
    var failed: bool

    function View(): Observed
      reads this
    {
      Observed(cursor, delivered, snapshotReceived, stopped, failed)
    }

    constructor (readers: Readers, afterSequence: int)
      ensures this.readers == readers && delivered == [] && cursor == (if afterSequence > 0 then afterSequence else 0)
    {
      this.readers, delivered := readers, [];
      cursor := if afterSequence > 0 then afterSequence else 0;
      snapshotReceived, stopped, failed := false, false, false;
    }

    method OnFrame(frame: Frame) returns (thrown: Option<Thrown>)
      modifies this
      ensures (View(), thrown) == Handle(old(View()), frame, readers)
      ensures thrown == Throwing(old(cursor), frame, readers)
      ensures cursor == if frame.id > old(cursor) then frame.id else old(cursor)
      ensures delivered == old(delivered) + if thrown.Some? then [] else Shown(old(cursor), frame, old(snapshotReceived), readers)
      ensures thrown.None? ==> stopped == match Said(old(cursor), frame, readers) case Some(says) => says case None => old(stopped)
    {
      FrameExactly(View(), frame, readers);
      if frame.event == "run.snapshot" {
        if frame.id > cursor { cursor := frame.id; }
        var snapshot := readers.snapshot(frame.data);
        if snapshot.None? { return Some(BadJson); }
        delivered := delivered + [SnapshotDelivered(frame.id)];
        snapshotReceived := true;
        stopped := snapshot.value;
        return None;
      }
      if frame.id > 0 && frame.id <= cursor { return None; }
      if frame.id > cursor { cursor := frame.id; }
      match readers.payload(frame.data) {
        case Unreadable => return Some(BadJson);
        case Output => delivered := delivered + [OutputDelivered(frame.id)];
        case Failure(denied) =>
          if denied { return Some(AccessDenied); }
          failed := true;
        case Live(state) =>
          delivered := delivered + [EventDelivered(frame.id, !snapshotReceived)];
          if state.Some? { stopped := state.value; }
      }
      return None;
    }

    /** The frames of one response, until one throws. */
    method Follow(chunks: seq<string>) returns (thrown: Option<Thrown>)
      modifies this
      ensures (View(), thrown) == HandleAll(old(View()), FramesOf(ReadAll(chunks).0), readers)
    {
      var frames := ReadSSE(chunks);
      var i := 0;
      thrown := None;
      while i < |frames| && thrown.None?
        invariant 0 <= i <= |frames|
        invariant HandleAll(old(View()), frames, readers) == if thrown.Some? then (View(), thrown) else HandleAll(View(), frames[i..], readers)
      {
        thrown := OnFrame(frames[i]);
        assert frames[i..][1..] == frames[i + 1..];
        i := i + 1;
      }
    }

    /** Four attempts at most, each after the last event seen. */
    method Observe(attempts: seq<Attempt>) returns (outcome: Outcome, requests: seq<nat>)
      requires |attempts| >= 4
      modifies this
      ensures (View(), outcome, requests) == AttemptFrom(old(View()), attempts, 0, readers)
      ensures Told(old(cursor), attempts, 0, outcome, requests, readers)
      ensures delivered == old(delivered) + DeliveredBy(requests, attempts, 0, readers)
    {
      ObservationExactly(View(), attempts, 0, readers);
      hide AttemptOnce, Told, DeliveredBy;
      requests := [];
      assert Prefixed([], AttemptFrom(View(), attempts, 0, readers)) == AttemptFrom(View(), attempts, 0, readers) by {
        assert [] + AttemptFrom(View(), attempts, 0, readers).2 == AttemptFrom(View(), attempts, 0, readers).2;
      }
      for attempt := 0 to 4
        invariant attempt < 4
        invariant AttemptFrom(old(View()), attempts, 0, readers) == Prefixed(requests, AttemptFrom(View(), attempts, attempt, readers))
      {
        if attempts[attempt].abortedBefore {
          assert requests + [] == requests;
          return Aborted, requests;
        }
        ghost var o, asked := View(), requests;
        requests := requests + [cursor];
        var result := Try(attempts[attempt]);
        PrefixedOnce(asked, o, View(), result, attempts, attempt, readers);
        if result.Some? { return result.value, requests; }
        if attempt == 3 { return GaveUp, requests; }
      }
      assert false;
    }

    method Try(a: Attempt) returns (outcome: Option<Outcome>)
      modifies this
      ensures (View(), outcome) == AttemptOnce(old(View()), a, readers)
    {
      snapshotReceived, stopped, failed := false, false, false;
      if a.refused.Some? {
        return if a.abortedAfter then Some(Aborted) else if !a.refused.value then Some(Denied) else None;
      }
      var thrown := Follow(a.chunks);
      if thrown.None? && !a.broken && stopped { return Some(Stopped); }
      if a.abortedAfter { return Some(Aborted); }
      if thrown == Some(AccessDenied) { return Some(Denied); }
      return None;
    }
  }

  ghost function Prefixed(requests: seq<nat>, rest: (Observed, Outcome, seq<nat>)): (Observed, Outcome, seq<nat>) {
    (rest.0, rest.1, requests + rest.2)
  }

  lemma PrefixedOnce(requests: seq<nat>, o: Observed, after: Observed, outcome: Option<Outcome>, attempts: seq<Attempt>, n: nat, readers: Readers)
    requires n < 4 <= |attempts| && !attempts[n].abortedBefore && (after, outcome) == AttemptOnce(o, attempts[n], readers)
    ensures Prefixed(requests, AttemptFrom(o, attempts, n, readers)) ==
      if outcome.Some? then (after, outcome.value, requests + [o.cursor])
      else if n == 3 then (after, GaveUp, requests + [o.cursor])
      else Prefixed(requests + [o.cursor], AttemptFrom(after, attempts, n + 1, readers))
  {
    hide AttemptOnce;
    if outcome.None? && n < 3 {
      var rest := AttemptFrom(after, attempts, n + 1, readers).2;
      assert requests + ([o.cursor] + rest) == requests + [o.cursor] + rest;
    }
  }

  // ---------------------------------------------------------------------------------------------
  // Nothing is missed
  // ---------------------------------------------------------------------------------------------

  function NumberedOf(delivered: seq<Delivery>): seq<nat>
    decreases |delivered|
  {
    if delivered == [] then []
    else
      var earlier, last := NumberedOf(delivered[..|delivered| - 1]), delivered[|delivered| - 1];
      if last.Numbered() then earlier + [last.sequence] else earlier
  }

  function Range(low: nat, high: nat): seq<nat>
    requires low <= high
  {
    seq(high - low, i requires 0 <= i => low + 1 + i)
  }

  /** A frame that can be read and does not fail. */
  predicate Readable(frame: Frame, readers: Readers) {
    if frame.event == "run.snapshot" then readers.snapshot(frame.data).Some?
    else readers.payload(frame.data).Output? || readers.payload(frame.data).Live?
  }

  /** The server goes on from a cursor: the next event each time, and snapshots of just what has been sent. */
  predicate GoesOn(frames: seq<Frame>, cursor: nat, readers: Readers)
    decreases |frames|
  {
    frames == [] ||
    (Readable(frames[0], readers) &&
      if frames[0].event == "run.snapshot" then frames[0].id == cursor && GoesOn(frames[1..], cursor, readers)
      else frames[0].id == cursor + 1 && GoesOn(frames[1..], cursor + 1, readers))
  }

  lemma NextArrives(start: nat, o: Observed, frame: Frame, readers: Readers)
    requires Readable(frame, readers) && frame.id == (if frame.event == "run.snapshot" then o.cursor else o.cursor + 1)
    requires start <= o.cursor && NumberedOf(o.delivered) == Range(start, o.cursor)
    ensures var (next, thrown) := Handle(o, frame, readers);
      thrown.None? && next.cursor == frame.id && NumberedOf(next.delivered) == Range(start, next.cursor)
  {
    var next := Handle(o, frame, readers).0;
    assert next.delivered[..|next.delivered| - 1] == o.delivered;
    assert frame.event != "run.snapshot" ==> Range(start, next.cursor) == Range(start, o.cursor) + [next.cursor];
  }

  lemma {:induction false} NothingIsMissed(start: nat, o: Observed, frames: seq<Frame>, readers: Readers)
    requires GoesOn(frames, o.cursor, readers) && start <= o.cursor && NumberedOf(o.delivered) == Range(start, o.cursor)
    ensures var (next, thrown) := HandleAll(o, frames, readers);
      thrown.None? && start <= next.cursor && NumberedOf(next.delivered) == Range(start, next.cursor)
    decreases |frames|
  {
    if frames != [] {
      NextArrives(start, o, frames[0], readers);
      hide Handle, NumberedOf, Range, Readable;
      var next := Handle(o, frames[0], readers).0;
      NothingIsMissed(start, next, frames[1..], readers);
    }
  }

  /** What the server sends to a subscriber after `after`: replays, a snapshot at `asOf`, and live events. */
  function ServerItems(after: nat, asOf: nat, live: nat, event: nat -> (string, string), snapshot: string): seq<Item>
    requires after <= asOf <= live
  {
    Events(after, asOf, event) + [Written(asOf, "run.snapshot", snapshot)] + Events(asOf, live, event)
  }

  function Events(low: nat, high: nat, event: nat -> (string, string)): seq<Item>
    requires low <= high
    decreases high - low
  {
    if low == high then [] else [Written(low + 1, event(low + 1).0, event(low + 1).1)] + Events(low + 1, high, event)
  }

  ghost predicate GoodEvents(event: nat -> (string, string), readers: Readers) {
    forall n: nat ::
      var (kind, data) := event(n);
      kind != "run.snapshot" && OneLine(kind) && OneLine(data) && (readers.payload(data).Output? || readers.payload(data).Live?)
  }

  lemma {:induction false} SentAdds(x: seq<Item>, y: seq<Item>)
    ensures Sent(x + y) == Sent(x) + Sent(y)
    decreases |x|
  {
    if x == [] { assert x + y == y; } else { assert (x + y)[1..] == x[1..] + y; SentAdds(x[1..], y); }
  }

  lemma {:induction false} EventsGoOn(low: nat, high: nat, event: nat -> (string, string), rest: seq<Frame>, readers: Readers)
    requires low <= high && GoodEvents(event, readers) && GoesOn(rest, high, readers)
    ensures GoesOn(Sent(Events(low, high, event)) + rest, low, readers) && AllPlain(Events(low, high, event))
    decreases high - low
  {
    if low == high {
      assert [] + rest == rest;
    } else {
      var e := event(low + 1);
      var first, more := Frame(e.0, low + 1, e.1), Sent(Events(low + 1, high, event));
      EventsGoOn(low + 1, high, event, rest, readers);
      assert Sent(Events(low, high, event)) == [first] + more;
      assert ([first] + more + rest)[1..] == more + rest;
    }
  }

  lemma ServerGoesOn(after: nat, asOf: nat, live: nat, event: nat -> (string, string), snapshot: string, readers: Readers)
    requires after <= asOf <= live && GoodEvents(event, readers) && OneLine(snapshot) && readers.snapshot(snapshot).Some?
    ensures GoesOn(Sent(ServerItems(after, asOf, live, event, snapshot)), after, readers)
    ensures AllPlain(ServerItems(after, asOf, live, event, snapshot))
  {
    var replayed, seen, later := Events(after, asOf, event), [Written(asOf, "run.snapshot", snapshot)], Events(asOf, live, event);
    EventsGoOn(asOf, live, event, [], readers);
    assert Sent(later) + [] == Sent(later);
    SentAdds(seen, later);
    assert seen[1..] == [] && Sent(seen) == [Frame("run.snapshot", asOf, snapshot)];
    assert (Sent(seen) + Sent(later))[1..] == Sent(later);
    EventsGoOn(after, asOf, event, Sent(seen + later), readers);
    SentAdds(replayed, seen + later);
    assert replayed + seen + later == replayed + (seen + later);
    assert OneLine("run.snapshot");
  }

  lemma {:induction false} CutGoesOn(frames: seq<Frame>, cut: nat, cursor: nat, readers: Readers)
    requires GoesOn(frames, cursor, readers) && cut <= |frames|
    ensures GoesOn(frames[..cut], cursor, readers)
    decreases |frames|
  {
    if cut > 0 {
      assert frames[..cut][1..] == frames[1..][..cut - 1];
      CutGoesOn(frames[1..], cut - 1, if frames[0].event == "run.snapshot" then cursor else cursor + 1, readers);
    }
  }

  /**
    End to end: the server's text, broken off anywhere and cut into chunks in any way, advances the observer from
    its cursor without a gap; so over any number of reconnections every event is delivered once.
   */
  lemma ObservesEveryEvent(start: nat, o: Observed, asOf: nat, live: nat, event: nat -> (string, string), snapshot: string,
                           readers: Readers, chunks: seq<string>)
    requires start <= o.cursor <= asOf <= live && NumberedOf(o.delivered) == Range(start, o.cursor)
    requires GoodEvents(event, readers) && OneLine(snapshot) && readers.snapshot(snapshot).Some?
    requires Whole(chunks) <= StreamText(ServerItems(o.cursor, asOf, live, event, snapshot))
    ensures var (next, thrown) := HandleAll(o, FramesOf(ReadAll(chunks).0), readers);
      thrown.None? && start <= next.cursor && NumberedOf(next.delivered) == Range(start, next.cursor)
  {
    var items := ServerItems(o.cursor, asOf, live, event, snapshot);
    ServerGoesOn(o.cursor, asOf, live, event, snapshot, readers);
    hide ServerItems, GoodEvents;
    BrokenOffIsRead(items, chunks);
    var frames := FramesOf(ReadAll(chunks).0);
    CutGoesOn(Sent(items), |frames|, o.cursor, readers);
    assert Sent(items)[..|frames|] == frames;
    NothingIsMissed(start, o, frames, readers);
  }

  /** Frames numbered as the server numbers them, whatever their texts are. */
  predicate Numbering(frames: seq<Frame>, cursor: nat)
    decreases |frames|
  {
    frames == [] ||
    (if frames[0].event == "run.snapshot" then frames[0].id == cursor && Numbering(frames[1..], cursor)
     else frames[0].id == cursor + 1 && Numbering(frames[1..], cursor + 1))
  }

  function LastNumber(frames: seq<Frame>, cursor: nat): nat
    decreases |frames|
  {
    if frames == [] then cursor else LastNumber(frames[1..], if frames[0].event == "run.snapshot" then cursor else cursor + 1)
  }

  predicate AllReadable(frames: seq<Frame>, readers: Readers) {
    forall i :: 0 <= i < |frames| ==> Readable(frames[i], readers)
  }

  /** Every frame was gone through, and every event up to the last was delivered, in order. */
  ghost predicate Complete(start: nat, o: Observed, frames: seq<Frame>, readers: Readers)
    requires start <= o.cursor
  {
    var (next, thrown) := HandleAll(o, frames, readers);
    thrown.None? && start <= LastNumber(frames, o.cursor) && NumberedOf(next.delivered) == Range(start, LastNumber(frames, o.cursor))
  }

  lemma {:induction false} ReadableGoesOn(frames: seq<Frame>, cursor: nat, readers: Readers)
    requires Numbering(frames, cursor) && AllReadable(frames, readers)
    ensures GoesOn(frames, cursor, readers) && LastNumber(frames, cursor) >= cursor
    decreases |frames|
  {
    if frames != [] {
      assert Readable(frames[0], readers);
      assert forall i :: 0 <= i < |frames| - 1 ==> frames[1..][i] == frames[i + 1];
      ReadableGoesOn(frames[1..], if frames[0].event == "run.snapshot" then cursor else cursor + 1, readers);
    }
  }

  lemma {:induction false} GoneThrough(o: Observed, frames: seq<Frame>, readers: Readers)
    requires GoesOn(frames, o.cursor, readers)
    ensures HandleAll(o, frames, readers).0.cursor == LastNumber(frames, o.cursor)
    decreases |frames|
  {
    if frames != [] {
      var next := Handle(o, frames[0], readers).0;
      assert next.cursor == if frames[0].event == "run.snapshot" then o.cursor else o.cursor + 1;
      GoneThrough(next, frames[1..], readers);
    }
  }

  /** What an unreadable frame does: it throws, or is passed over with the cursor on it. */
  lemma UnreadableFrame(o: Observed, frame: Frame, readers: Readers)
    requires !Readable(frame, readers) && frame.id == (if frame.event == "run.snapshot" then o.cursor else o.cursor + 1)
    requires forall n :: n in NumberedOf(o.delivered) ==> n <= o.cursor
    ensures var (next, thrown) := Handle(o, frame, readers);
      thrown.Some? || (frame.event != "run.snapshot" && next.cursor == frame.id && next.delivered == o.delivered && frame.id !in NumberedOf(next.delivered))
  {
  }

  lemma {:induction false} LastNumberGrows(frames: seq<Frame>, cursor: nat)
    ensures LastNumber(frames, cursor) >= cursor
    decreases |frames|
  {
    if frames != [] { LastNumberGrows(frames[1..], if frames[0].event == "run.snapshot" then cursor else cursor + 1); }
  }

  /** Once a number has been passed over it stays missing, so the delivery is not complete. */
  lemma MissingIsIncomplete(start: nat, missing: nat, o: Observed, frames: seq<Frame>, readers: Readers)
    requires start < missing <= o.cursor && missing !in NumberedOf(o.delivered)
    ensures !Complete(start, o, frames, readers)
  {
    NeverAgain(missing, o, frames, readers);
    LastNumberGrows(frames, o.cursor);
    var last := LastNumber(frames, o.cursor);
    assert Range(start, last)[missing - start - 1] == missing;
  }

  lemma RangeIsBelow(start: nat, cursor: nat)
    requires start <= cursor
    ensures forall n :: n in Range(start, cursor) ==> n <= cursor
  {
  }

  /** From a complete start, a numbered series of frames is delivered completely exactly when every frame can be read. */
  lemma {:induction false} CompleteExactly(start: nat, o: Observed, frames: seq<Frame>, readers: Readers)
    requires Numbering(frames, o.cursor) && start <= o.cursor && NumberedOf(o.delivered) == Range(start, o.cursor)
    ensures Complete(start, o, frames, readers) <==> AllReadable(frames, readers)
    decreases |frames|
  {
    if AllReadable(frames, readers) {
      ReadableGoesOn(frames, o.cursor, readers);
      NothingIsMissed(start, o, frames, readers);
      GoneThrough(o, frames, readers);
    } else if Readable(frames[0], readers) {
      NextArrives(start, o, frames[0], readers);
      var next := Handle(o, frames[0], readers).0;
      assert forall i :: 0 <= i < |frames| - 1 ==> frames[1..][i] == frames[i + 1];
      hide Handle, NumberedOf, Range, Readable;
      CompleteExactly(start, next, frames[1..], readers);
    } else {
      RangeIsBelow(start, o.cursor);
      UnreadableFrame(o, frames[0], readers);
      var (next, thrown) := Handle(o, frames[0], readers);
      hide Handle, NumberedOf, Range, Readable;
      if thrown.None? { MissingIsIncomplete(start, frames[0].id, next, frames[1..], readers); }
    }
  }

  /** An event whose text cannot be read is passed over for good: the cursor has moved when reading it fails. */
  lemma UnreadableIsLost(o: Observed, frame: Frame, readers: Readers, later: seq<Frame>)
    requires frame.event != "run.snapshot" && frame.id == o.cursor + 1 && readers.payload(frame.data).Unreadable?
    requires frame.id !in NumberedOf(o.delivered)
    ensures var (next, thrown) := Handle(o, frame, readers);
      thrown == Some(BadJson) && next.delivered == o.delivered && frame.id !in NumberedOf(HandleAll(next, later, readers).0.delivered)
  {
    NeverAgain(frame.id, Handle(o, frame, readers).0, later, readers);
  }

  lemma NumberedGrows(delivered: seq<Delivery>, d: Delivery)
    ensures NumberedOf(delivered + [d]) == if d.Numbered() then NumberedOf(delivered) + [d.sequence] else NumberedOf(delivered)
  {
    assert (delivered + [d])[..|delivered|] == delivered;
  }

  lemma NotYet(id: nat, o: Observed, frame: Frame, readers: Readers)
    requires id <= o.cursor && id !in NumberedOf(o.delivered)
    ensures var next := Handle(o, frame, readers).0; id <= next.cursor && id !in NumberedOf(next.delivered)
  {
    hide NumberedOf;
    NumberedGrows(o.delivered, SnapshotDelivered(frame.id));
    NumberedGrows(o.delivered, OutputDelivered(frame.id));
    NumberedGrows(o.delivered, EventDelivered(frame.id, !o.snapshotReceived));
  }

  lemma {:induction false} NeverAgain(id: nat, o: Observed, frames: seq<Frame>, readers: Readers)
    requires id <= o.cursor && id !in NumberedOf(o.delivered)
    ensures id !in NumberedOf(HandleAll(o, frames, readers).0.delivered)
    decreases |frames|
  {
    hide Handle, NumberedOf;
    if frames != [] {
      NotYet(id, o, frames[0], readers);
      NeverAgain(id, Handle(o, frames[0], readers).0, frames[1..], readers);
    }
  }
}
