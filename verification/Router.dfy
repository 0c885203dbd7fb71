/** The router in front of a linearized space: callers overlap, turns do not. A turn is chained behind every earlier one
    and pauses at each await; another turn starts only when it has settled. */
module Router {
  import opened Options

  /** What a caller asks for: an operation, which leaves an entry or none, or a snapshot of the recording. */
  datatype Request = Operation(records: bool) | Snapshot

  datatype Turn = Turn(id: nat, request: Request)

  /** Where the running turn is paused: before it is authorized, while the provider executes, or while its entry,
      already appended, is being sealed and written. */
  datatype Phase = Authorizing | Executing | Persisting

  datatype Running = Idle | Busy(turn: Turn, phase: Phase)

  /** `entries` holds, for each entry of the recording, the call that left it; `sealed` is false while the last entry is
      appended but not yet sealed; `snapshots` maps a snapshot call to what it was given. */
  datatype State = State(issued: nat, queue: seq<Turn>, running: Running, closed: bool, failed: bool,
                         entries: seq<nat>, sealed: bool, snapshots: map<nat, seq<nat>>)

  const INITIAL := State(0, [], Idle, false, false, [], true, map[])

  datatype Event =
    | Issue(request: Request)   // a caller calls invoke or snapshotRecording
    | Begin                     // the chained turn starts, its predecessor having settled
    | Refuse                    // the running turn throws before the provider is asked to execute
    | Authorize                 // authorization returned
    | Append                    // the provider answered and the entry is appended
    | Answer                    // the provider answered an operation that leaves no entry
    | Commit                    // the write of the appended entry returned
    | Break                     // a commit failed: the space refuses everything from then on
    | Close                     // close() was called

  /** One step of the router and its recording space, if it is possible. */
  function Next(s: State, e: Event): Option<State> {
    match e
    case Issue(request) => Some(s.(issued := s.issued + 1, queue := s.queue + [Turn(s.issued, request)]))
    case Begin =>
      if s.running.Idle? && s.queue != [] then
        var turn, rest := s.queue[0], s.queue[1..];
        if turn.request.Snapshot? then
          Some(if s.failed then s.(queue := rest)
               else s.(queue := rest, snapshots := s.snapshots[turn.id := s.entries]))
        else if s.closed then Some(s.(queue := rest))
        else Some(s.(queue := rest, running := Busy(turn, Authorizing)))
      else None
    case Refuse =>
      if s.running.Busy? && s.running.phase.Authorizing? then Some(s.(running := Idle)) else None
    case Authorize =>
      if s.running.Busy? && s.running.phase.Authorizing? && !s.failed
      then Some(s.(running := s.running.(phase := Executing))) else None
    case Append =>
      if s.running.Busy? && s.running.phase.Executing? && s.running.turn.request == Operation(true)
      then Some(s.(entries := s.entries + [s.running.turn.id], sealed := false,
                   running := s.running.(phase := Persisting))) else None
    case Answer =>
      if s.running.Busy? && s.running.phase.Executing? && s.running.turn.request == Operation(false)
      then Some(s.(running := Idle)) else None
    case Commit =>
      if s.running.Busy? && s.running.phase.Persisting? then Some(s.(running := Idle, sealed := true)) else None
    case Break =>
      if s.running.Busy? && !s.running.phase.Authorizing? then Some(s.(running := Idle, failed := true)) else None
    case Close => Some(s.(closed := true))
  }

  /** The state after a run of events, if every one of them is possible in turn. */
  function Run(events: seq<Event>): Option<State>
    decreases |events|
  {
    if events == [] then Some(INITIAL)
    else
      match Run(events[..|events| - 1])
      case None => None
      case Some(s) => Next(s, events[|events| - 1])
  }

  predicate Increasing(ids: seq<nat>) { forall i, j :: 0 <= i < j < |ids| ==> ids[i] < ids[j] }

  /** The first id that no settled turn can have. */
  function Frontier(s: State): nat {
    if s.running.Busy? then s.running.turn.id else if s.queue != [] then s.queue[0].id else s.issued
  }

  ghost predicate Queued(s: State) {
    && (forall i :: 0 <= i < |s.queue| ==> s.queue[i].id + |s.queue| == s.issued + i)
    && |s.queue| <= s.issued
    && (s.running.Busy? ==> s.running.turn.id + |s.queue| + 1 == s.issued && s.running.turn.request.Operation?)
  }

  /** The entries of one snapshot are those of all the calls made before it, and they stay a prefix. */
  ghost predicate SnapshotHolds(s: State, id: nat) {
    && id in s.snapshots && id < s.issued
    && s.snapshots[id] <= s.entries
    && (forall i :: 0 <= i < |s.entries| ==> (i < |s.snapshots[id]| <==> s.entries[i] < id))
  }

  ghost predicate Committing(s: State) { s.running.Busy? && s.running.phase.Persisting? }

  /** Entries belong to settled turns, except the last one while its own turn is committing it. */
  ghost predicate Ordered(s: State) {
    && Increasing(s.entries)
    && (if Committing(s)
        then s.entries != [] && s.entries[|s.entries| - 1] == Frontier(s)
        else forall i :: 0 <= i < |s.entries| ==> s.entries[i] < Frontier(s))
    && (s.sealed || s.failed || Committing(s))
  }

  ghost predicate SnapshotsHold(s: State) {
    forall id :: id in s.snapshots ==> SnapshotHolds(s, id) && id < Frontier(s)
  }

  ghost predicate Inv(s: State) { Queued(s) && Ordered(s) && SnapshotsHold(s) }

  lemma {:induction false} NextQueued(s: State, e: Event)
    requires Queued(s) && Next(s, e).Some?
    ensures Queued(Next(s, e).value) && Frontier(s) <= Frontier(Next(s, e).value)
  {
    match e
    case Issue(_) =>
    case Begin =>
    case _ =>
  }

  lemma {:induction false} NextOrdered(s: State, e: Event)
    requires Queued(s) && Ordered(s) && Next(s, e).Some?
    ensures Ordered(Next(s, e).value) && s.entries <= Next(s, e).value.entries
    ensures |Next(s, e).value.entries| > |s.entries| ==>
      e.Append? && Next(s, e).value.entries == s.entries + [Frontier(s)]
  {
    NextQueued(s, e);
    match e
    case Issue(_) =>
    case Begin =>
    case Append =>
    case _ =>
  }

  lemma {:induction false} SnapshotStays(s: State, e: Event, id: nat)
    requires Inv(s) && Next(s, e).Some? && id in s.snapshots
    ensures SnapshotHolds(Next(s, e).value, id) && id < Frontier(Next(s, e).value)
  {
    NextQueued(s, e);
    NextOrdered(s, e);
    assert SnapshotHolds(s, id);
  }

  lemma {:induction false} NextSnapshots(s: State, e: Event)
    requires Inv(s) && Next(s, e).Some?
    ensures SnapshotsHold(Next(s, e).value)
  {
    var n := Next(s, e).value;
    NextQueued(s, e);
    NextOrdered(s, e);
    forall id | id in n.snapshots ensures SnapshotHolds(n, id) && id < Frontier(n) {
      if id in s.snapshots { SnapshotStays(s, e, id); }
    }
  }

  /** Each event keeps the invariant, and a snapshot is taken only of a sealed recording. */
  lemma {:induction false} NextKeepsInv(s: State, e: Event)
    requires Inv(s) && Next(s, e).Some?
    ensures Inv(Next(s, e).value)
    ensures e.Begin? && s.queue[0].request.Snapshot? && !s.failed ==> s.sealed
  {
    NextQueued(s, e);
    NextOrdered(s, e);
    NextSnapshots(s, e);
  }

  lemma {:induction false} RunKeepsInv(events: seq<Event>)
    requires Run(events).Some?
    ensures Inv(Run(events).value)
    decreases |events|
  {
    if events != [] {
      RunKeepsInv(events[..|events| - 1]);
      NextKeepsInv(Run(events[..|events| - 1]).value, events[|events| - 1]);
    }
  }

  /** However callers overlap, entries stand in the order the calls were made, and the entry of a call stands before
      those of every later call. */
  lemma {:induction false} EntryOrderIsCallOrder(events: seq<Event>)
    requires Run(events).Some?
    ensures Increasing(Run(events).value.entries)
  {
    RunKeepsInv(events);
  }

  /** A snapshot, once given, is never changed by a later event. */
  lemma {:induction false} NextKeepsSnapshot(s: State, e: Event, id: nat)
    requires Inv(s) && Next(s, e).Some? && id in s.snapshots
    ensures id in Next(s, e).value.snapshots && Next(s, e).value.snapshots[id] == s.snapshots[id]
  {
    assert SnapshotHolds(s, id) && id < Frontier(s);
  }

  lemma {:induction false} RunKeepsSnapshot(events: seq<Event>, later: seq<Event>, id: nat)
    requires Run(events).Some? && Run(events + later).Some? && id in Run(events).value.snapshots
    ensures id in Run(events + later).value.snapshots
    ensures Run(events + later).value.snapshots[id] == Run(events).value.snapshots[id]
    decreases |later|
  {
    if later == [] {
      assert events + later == events;
    } else {
      var all, last := events + later, later[|later| - 1];
      var before := events + later[..|later| - 1];
      assert all[..|all| - 1] == before && all[|all| - 1] == last && |all| > 0;
      assert Run(all) == Next(Run(before).value, last);
      RunKeepsSnapshot(events, later[..|later| - 1], id);
      RunKeepsInv(before);
      NextKeepsSnapshot(Run(before).value, last, id);
    }
  }

  /** Every snapshot is a prefix of the recording made of whole entries: exactly those of the calls made before the
      snapshot, all of them settled, none half committed; later events only add after it. */
  lemma {:induction false} SnapshotIsWholePrefix(events: seq<Event>, later: seq<Event>, id: nat)
    requires Run(events).Some? && Run(events + later).Some? && id in Run(events).value.snapshots
    ensures var early, late := Run(events).value, Run(events + later).value;
      && id in late.snapshots && late.snapshots[id] == early.snapshots[id]
      && late.snapshots[id] <= late.entries
      && forall i :: 0 <= i < |late.entries| ==> (i < |late.snapshots[id]| <==> late.entries[i] < id)
  {
    RunKeepsSnapshot(events, later, id);
    RunKeepsInv(events + later);
    assert SnapshotHolds(Run(events + later).value, id);
  }
}
