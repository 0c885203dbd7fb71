/** Buckets of observed events with sequence numbers, and the windows that are read from them: what a window returns and
    what it says it lost together account for every event. */
module EventWindows {
  import opened Options

  type Payload = nat

  const MAX_EVENTS := 100

  datatype Event = Event(payload: Payload, sequence: nat)

  datatype Window = Window(startSequence: nat, endSequence: nat, returnedCount: nat, droppedBeforeStart: nat,
                           droppedWithinWindow: nat, complete: bool)

  datatype Reading = Reading(events: seq<Event>, window: Window)

  /** The events numbered `from + 1` to `until` of a stream. */
  ghost function Numbered(stream: seq<Payload>, from: nat, until: nat): (r: seq<Event>)
    requires from <= until <= |stream|
    ensures |r| == until - from
  {
    seq(until - from, i requires 0 <= i < until - from => Event(stream[from + i], from + i + 1))
  }

  function Payloads(events: seq<Event>): (r: seq<Payload>)
    ensures |r| == |events|
  {
    seq(|events|, i requires 0 <= i < |events| => events[i].payload)
  }

  lemma {:induction false} NumberedTail(stream: seq<Payload>, from: nat, until: nat, k: nat)
    requires from <= until <= |stream| && k <= until - from
    ensures Numbered(stream, from, until)[k..] == Numbered(stream, from + k, until)
  {}

  lemma {:induction false} PayloadsOfNumbered(stream: seq<Payload>, from: nat, until: nat)
    requires from <= until <= |stream|
    ensures Payloads(Numbered(stream, from, until)) == stream[from..until]
  {}

  /** The last events are everything above a number exactly when there are as many as that. */
  lemma {:induction false} AllReturned(stream: seq<Payload>, start: nat, count: nat)
    requires count <= |stream|
    ensures Payloads(Numbered(stream, |stream| - count, |stream|)) == stream[Min(start, |stream|)..]
       <==> count == Max(0, |stream| - start)
  {
    PayloadsOfNumbered(stream, |stream| - count, |stream|);
    assert |stream[Min(start, |stream|)..]| == |stream| - Min(start, |stream|);
  }

  function Max(a: int, b: int): int { if a >= b then a else b }
  function Min(a: int, b: int): int { if a <= b then a else b }

  /** A reading of the stream after event number `start`: everything up to the end is either returned, as the last
      events in order, or counted as dropped, and `complete` says that nothing was. */
  ghost predicate Accounts(stream: seq<Payload>, start: nat, maxEvents: nat, r: Reading) {
    var end := |stream|;
    && r.window.startSequence == start && r.window.endSequence == end
    && r.window.returnedCount == |r.events| <= maxEvents
    && r.window.returnedCount + r.window.droppedWithinWindow == Max(0, end - start)
    && r.events == Numbered(stream, end - |r.events|, end)
    && (r.window.complete <==> Payloads(r.events) == stream[Min(start, end)..])
  }

  /** One channel of one session. `stream` is every event the channel ever received. */
  class EventBucket {
    var events: seq<Event>
    var nextSequence: nat
    var droppedThrough: nat
    ghost var stream: seq<Payload>

    /** The bucket holds the last events of the stream, a contiguous run of numbers just above `droppedThrough`, and
        never drops one before it is full. */
    ghost predicate Valid()
      reads this
    {
      && nextSequence == |stream| + 1 && droppedThrough <= |stream|
      && events == Numbered(stream, droppedThrough, |stream|)
      && |events| <= MAX_EVENTS && (droppedThrough > 0 ==> |events| == MAX_EVENTS)
    }

    constructor ()
      ensures Valid() && stream == []
    {
      events, nextSequence, droppedThrough := [], 1, 0;
      stream := [];
    }

    method Receive(payload: Payload)
      requires Valid()
      modifies this
      ensures Valid() && stream == old(stream) + [payload]
    {
      events := events + [Event(payload, nextSequence)];
      nextSequence := nextSequence + 1;
      stream := stream + [payload];
      if |events| > MAX_EVENTS {
        var excess := |events| - MAX_EVENTS;
        var removed := events[..excess];
        events := events[excess..];
        droppedThrough := removed[|removed| - 1].sequence;
      }
    }

    /** The events above a number, by looking at each. */
    method Above(start: nat) returns (eligible: seq<Event>)
      requires Valid()
      ensures eligible == Numbered(stream, Min(Max(start, droppedThrough), |stream|), |stream|)
    {
      eligible := [];
      ghost var first := Min(Max(start, droppedThrough), |stream|);
      for i := 0 to |events|
        invariant if droppedThrough + i <= first then eligible == []
                  else eligible == Numbered(stream, first, droppedThrough + i)
      {
        if events[i].sequence > start { eligible := eligible + [events[i]]; }
      }
    }

    /** Reads the newest events above the watermark, at most `maxEvents` of them. */
    method Read(maxEvents: nat, watermark: Option<int>) returns (r: Reading)
      requires Valid()
      ensures Accounts(stream, if watermark.Some? && watermark.value >= 0 then watermark.value else 0, maxEvents, r)
      ensures r.window.droppedBeforeStart == Min(r.window.startSequence, droppedThrough)
    {
      var start: nat := if watermark.Some? && watermark.value >= 0 then watermark.value else 0;
      var end: nat := nextSequence - 1;
      var eligible := Above(start);
      var selected := eligible[Max(0, |eligible| - maxEvents)..];
      var droppedByProjection: nat := Max(0, |eligible| - |selected|);
      var droppedByRetention: nat := Max(0, Min(end, droppedThrough) - start);
      var dropped := droppedByProjection + droppedByRetention;
      r := Reading(selected, Window(start, end, |selected|, Min(start, droppedThrough), dropped, dropped == 0));
      ghost var first := Min(Max(start, droppedThrough), end);
      NumberedTail(stream, first, end, Max(0, |eligible| - maxEvents));
      AllReturned(stream, start, |selected|);
    }
  }

  /** The windows follow one another: each starts at the number the one before ended with. */
  ghost predicate Chained(windows: seq<Reading>) {
    forall i :: 0 <= i < |windows| - 1 ==> windows[i + 1].window.startSequence == windows[i].window.endSequence
  }

  ghost function Joined(windows: seq<Reading>): seq<Payload> {
    if windows == [] then [] else Joined(windows[..|windows| - 1]) + Payloads(windows[|windows| - 1].events)
  }

  /** The stream each window saw, every one an extension of the one before. */
  ghost predicate Saw(streams: seq<seq<Payload>>, windows: seq<Reading>, maxEvents: nat) {
    && |streams| == |windows|
    && (forall i :: 0 <= i < |windows| ==> Accounts(streams[i], windows[i].window.startSequence, maxEvents, windows[i]))
    && forall i :: 0 <= i < |windows| - 1 ==> streams[i] <= streams[i + 1]
  }

  /** Chained complete windows, read while events keep coming, join to the event stream from where the first started: no
      gap and no repetition. */
  lemma {:induction false} ChainedWindowsJoinToTheStream(streams: seq<seq<Payload>>, windows: seq<Reading>,
                                                         maxEvents: nat)
    requires Saw(streams, windows, maxEvents) && Chained(windows) && windows != []
    requires forall i :: 0 <= i < |windows| ==> windows[i].window.complete
    requires windows[0].window.startSequence <= |streams[0]|
    ensures windows[0].window.startSequence <= |streams[|streams| - 1]|
    ensures Joined(windows) == streams[|streams| - 1][windows[0].window.startSequence..]
    decreases |windows|
  {
    var n := |windows| - 1;
    var last := windows[n];
    assert Accounts(streams[n], last.window.startSequence, maxEvents, last);
    if n == 0 {
      assert windows[..0] == [] && [] + Payloads(last.events) == Payloads(last.events);
    } else {
      var start := windows[0].window.startSequence;
      ChainedWindowsJoinToTheStream(streams[..n], windows[..n], maxEvents);
      var seen := streams[n - 1];
      assert streams[..n][|streams[..n]| - 1] == seen && seen <= streams[n];
      assert Accounts(seen, windows[n - 1].window.startSequence, maxEvents, windows[n - 1]);
      assert last.window.startSequence == |seen| && Payloads(last.events) == streams[n][|seen|..];
      assert streams[n][start..] == seen[start..] + streams[n][|seen|..];
    }
  }

  /** One window loses nothing exactly when the bucket still held everything above the start and the limit let it all
      through. */
  lemma {:induction false} CompleteMeansNothingDropped(stream: seq<Payload>, start: nat, maxEvents: nat, r: Reading)
    requires Accounts(stream, start, maxEvents, r)
    ensures r.window.complete <==> r.window.droppedWithinWindow == 0
    ensures r.window.complete ==> r.window.returnedCount == Max(0, |stream| - start)
  {
    if r.window.complete {
      assert |Payloads(r.events)| == |stream[Min(start, |stream|)..]|;
    }
    PayloadsOfNumbered(stream, |stream| - |r.events|, |stream|);
  }
}
