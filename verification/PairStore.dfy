/** Paired generations on disk and the clients that race on them. Objects and pair markers are written once; each app
    has one HEAD, moved only by an atomic compare-and-swap. Clients interleave at every await. */
module PairStore {
  import opened Options

  type Digest = nat
  type PairId = nat
  type AppId = nat

  /** One paired generation: an app snapshot, the Machine checkpoint captured with it, and the pair it grew from. */
  datatype Pair = Pair(id: PairId, parent: Option<Digest>, app: AppId, state: nat, outbox: seq<nat>, checkpoint: nat)

  /** A HEAD file names a digest, or holds the null a rollback wrote into it. */
  datatype Head = Points(digest: Digest) | HoldsNull

  /** What reading a HEAD gives: a digest, nothing (no file), or HEAD_CORRUPT. */
  datatype Reading = Unreadable | Reads(digest: Option<Digest>)

  datatype Mover = ByCheckpoint | ByAdopt | ByUndo

  datatype Move = Move(app: AppId, from: Option<Digest>, to: Option<Digest>, mover: Mover)

  /** `born` and `moves` keep the history: when each object was first written, and every HEAD move in order. */
  datatype Store = Store(objects: map<Digest, Pair>, markers: map<PairId, Digest>, heads: map<AppId, Head>,
                         born: map<Digest, nat>, clock: nat, moves: seq<Move>)

  const EMPTY := Store(map[], map[], map[], map[], 0, [])

  function ReadHead(s: Store, app: AppId): Reading {
    if app !in s.heads then Reads(None)
    else if s.heads[app].Points? then Reads(Some(s.heads[app].digest))
    else Unreadable
  }

  /** The compare-and-swap of an app HEAD; unchanged when the HEAD does not read as expected. */
  function SwapHead(s: Store, app: AppId, expected: Option<Digest>, next: Option<Digest>, mover: Mover): Store {
    if ReadHead(s, app) != Reads(expected) then s
    else s.(heads := s.heads[app := if next.Some? then Points(next.value) else HoldsNull],
            moves := s.moves + [Move(app, expected, next, mover)])
  }

  function ReadDigest(hash: Pair -> Digest, s: Store, d: Digest): Option<Pair> {
    if d in s.objects && hash(s.objects[d]) == d then Some(s.objects[d]) else None
  }

  function ReadPair(hash: Pair -> Digest, s: Store, id: PairId): Option<Pair> {
    if id in s.markers then ReadDigest(hash, s, s.markers[id]) else None
  }

  /** Writing an object: refused when other bytes stand under the digest, nothing new when the same bytes do. */
  function WriteObject(hash: Pair -> Digest, s: Store, pair: Pair): Option<Store> {
    var d := hash(pair);
    if d !in s.objects then
      Some(s.(objects := s.objects[d := pair], born := s.born[d := s.clock], clock := s.clock + 1))
    else if s.objects[d] == pair then Some(s)
    else None
  }

  // ---- Clients. Each of their calls stands at the store access that comes next.

  datatype Task =
    | CheckpointTask(app: AppId, id: PairId, expected: Option<Digest>, at: Step)
    | BranchTask(app: AppId, id: PairId, expected: Option<Digest>, parentId: PairId, at: Step)
    | AdoptTask(app: AppId, id: PairId, expected: Option<Digest>, at: Step)

  datatype Step =
    | OpenParent                     // branch: open the parent pair by its id
    | CheckActive(parent: Option<Digest>)
    | CheckMarker(parent: Option<Digest>)
    | CheckParent(parent: Option<Digest>)
    | WritePair(parent: Option<Digest>)
    | PublishMarker(pair: Pair)
    | VerifyNext(pair: Pair)
    | SwapNext(pair: Pair)
    | OpenPair                       // adopt: open the pair by its id
    | ReopenPair(pair: Pair)         // adopt: the registry opens it again
    | Finishing(pair: Pair)          // adopt: HEAD moved, the fence is being resumed
    | VerifyBack(pair: Pair)
    | SwapBack(pair: Pair)

  function FirstStep(t: Task): Step {
    match t
    case CheckpointTask(_, _, expected, _) => CheckActive(expected)
    case BranchTask(_, _, _, _, _) => OpenParent
    case AdoptTask(_, _, _, _) => OpenPair
  }

  /** What a client brings to the pair it creates: the snapshot and the checkpoint it captured. */
  datatype Captured = Captured(state: nat, outbox: seq<nat>, checkpoint: nat)

  /** One access of a call: the store after it, and the call at its next step, or None when it ended or threw. */
  function Advance(hash: Pair -> Digest, s: Store, t: Task, c: Captured): (Store, Option<Task>) {
    match t.at
    case OpenParent =>
      (s, if t.BranchTask? && ReadPair(hash, s, t.parentId).Some?
          then Some(t.(at := CheckActive(Some(s.markers[t.parentId])))) else None)
    case CheckActive(parent) =>
      (s, if ReadHead(s, t.app) == Reads(t.expected)
             && (t.expected.Some? ==> ReadDigest(hash, s, t.expected.value).Some?)
             && (t.BranchTask? ==> parent == t.expected)
          then Some(t.(at := CheckMarker(parent))) else None)
    case CheckMarker(parent) =>
      (s, if t.id !in s.markers then Some(t.(at := CheckParent(parent))) else None)
    case CheckParent(parent) =>
      (s, if parent.None? then Some(t.(at := WritePair(parent)))
          else match ReadDigest(hash, s, parent.value)
            case Some(p) => if p.app == t.app then Some(t.(at := WritePair(parent))) else None
            case None => None)
    case WritePair(parent) =>
      var pair := Pair(t.id, parent, t.app, c.state, c.outbox, c.checkpoint);
      (match WriteObject(hash, s, pair)
       case Some(written) => (written, Some(t.(at := PublishMarker(pair))))
       case None => (s, None))
    case PublishMarker(pair) =>
      if t.id in s.markers then (s, None)
      else (s.(markers := s.markers[t.id := hash(pair)]),
            if t.CheckpointTask? then Some(t.(at := VerifyNext(pair))) else None)
    case VerifyNext(pair) =>
      (s, match ReadDigest(hash, s, hash(pair))
          case Some(p) => if p.app == t.app then Some(t.(at := SwapNext(pair))) else None
          case None => None)
    case SwapNext(pair) =>
      (SwapHead(s, t.app, t.expected, Some(hash(pair)), if t.AdoptTask? then ByAdopt else ByCheckpoint),
       if t.AdoptTask? && ReadHead(s, t.app) == Reads(t.expected) then Some(t.(at := Finishing(pair))) else None)
    case OpenPair =>
      (s, match ReadPair(hash, s, t.id)
          case Some(p) => if p.app == t.app then Some(t.(at := ReopenPair(p))) else None
          case None => None)
    case ReopenPair(_) =>
      (s, match ReadPair(hash, s, t.id)
          case Some(p) => Some(t.(at := VerifyNext(p)))
          case None => None)
    case Finishing(pair) => (s, Some(t.(at := VerifyBack(pair))))   // the resume failed: undo
    case VerifyBack(pair) =>
      (s, if t.expected.None? then Some(t.(at := SwapBack(pair)))
          else match ReadDigest(hash, s, t.expected.value)
            case Some(p) => if p.app == t.app then Some(t.(at := SwapBack(pair))) else None
            case None => None)
    case SwapBack(pair) => (SwapHead(s, t.app, Some(hash(pair)), t.expected, ByUndo), None)
  }

  datatype System = System(store: Store, tasks: map<nat, Task>)

  datatype Event =
    | Start(client: nat, task: Task)          // a call begins at its first step
    | Take(client: nat, captured: Captured)   // the client's next store access happens
    | Quit(client: nat)                       // the call returns, throws or its process dies

  function Next(hash: Pair -> Digest, s: System, e: Event): System {
    match e
    case Start(client, task) =>
      if client in s.tasks then s else s.(tasks := s.tasks[client := task.(at := FirstStep(task))])
    case Take(client, captured) =>
      if client !in s.tasks then s
      else
        var (store, task) := Advance(hash, s.store, s.tasks[client], captured);
        System(store, if task.Some? then s.tasks[client := task.value] else s.tasks - {client})
    case Quit(client) => s.(tasks := s.tasks - {client})
  }

  function Run(hash: Pair -> Digest, events: seq<Event>): System
    decreases |events|
  {
    if events == [] then System(EMPTY, map[])
    else Next(hash, Run(hash, events[..|events| - 1]), events[|events| - 1])
  }

  // ---- What every reachable store satisfies.

  /** The digest names a stored pair of the app, and that pair's marker names the digest. */
  ghost predicate Published(s: Store, d: Digest, app: AppId) {
    d in s.objects && s.objects[d].app == app && s.objects[d].id in s.markers && s.markers[s.objects[d].id] == d
  }

  /** Objects hash to their digests, and a parent is a pair of the same app written strictly earlier. */
  ghost predicate ObjectHolds(hash: Pair -> Digest, s: Store, d: Digest)
    requires d in s.objects
  {
    && hash(s.objects[d]) == d && d in s.born && s.born[d] < s.clock
    && (s.objects[d].parent.Some? ==>
      && s.objects[d].parent.value in s.objects && s.objects[d].parent.value in s.born
      && s.objects[s.objects[d].parent.value].app == s.objects[d].app
      && s.born[s.objects[d].parent.value] < s.born[d])
  }

  ghost predicate ObjectsHold(hash: Pair -> Digest, s: Store) {
    forall d :: d in s.objects ==> ObjectHolds(hash, s, d)
  }

  ghost predicate MarkersHold(s: Store) {
    forall id :: id in s.markers ==> s.markers[id] in s.objects && s.objects[s.markers[id]].id == id
  }

  ghost predicate HeadsHold(s: Store) {
    forall app :: app in s.heads && s.heads[app].Points? ==> Published(s, s.heads[app].digest, app)
  }

  /** What the moves so far leave an app's HEAD reading as. */
  function After(moves: seq<Move>, app: AppId): Reading {
    if moves == [] then Reads(None)
    else if moves[|moves| - 1].app == app then
      if moves[|moves| - 1].to.Some? then Reads(moves[|moves| - 1].to) else Unreadable
    else After(moves[..|moves| - 1], app)
  }

  ghost predicate MoveHolds(s: Store, i: nat)
    requires i < |s.moves|
  {
    var m := s.moves[i];
    && After(s.moves[..i], m.app) == Reads(m.from)
    && (m.to.Some? ==> Published(s, m.to.value, m.app))
    && (m.to.None? ==> m.mover.ByUndo?)
    && (m.mover.ByCheckpoint? ==> m.to.Some? && s.objects[m.to.value].parent == m.from)
  }

  ghost predicate MovesHold(s: Store) {
    && (forall i :: 0 <= i < |s.moves| ==> MoveHolds(s, i))
    && (forall app :: ReadHead(s, app) == After(s.moves, app))
  }

  ghost predicate StoreInv(hash: Pair -> Digest, s: Store) {
    ObjectsHold(hash, s) && MarkersHold(s) && HeadsHold(s) && MovesHold(s)
  }

  /** What a call knows about the store at its step. */
  ghost predicate TaskInv(hash: Pair -> Digest, s: Store, t: Task) {
    match t.at
    case OpenParent => t.BranchTask?
    case CheckActive(parent) => !t.AdoptTask? && (t.CheckpointTask? ==> parent == t.expected)
    case CheckMarker(parent) => !t.AdoptTask? && parent == t.expected
    case CheckParent(parent) => !t.AdoptTask? && parent == t.expected
    case WritePair(parent) => !t.AdoptTask? && parent == t.expected
      && (parent.Some? ==> parent.value in s.objects && s.objects[parent.value].app == t.app)
    case PublishMarker(pair) => !t.AdoptTask? && hash(pair) in s.objects && s.objects[hash(pair)] == pair
      && pair.id == t.id && pair.app == t.app && pair.parent == t.expected
    case VerifyNext(pair) => Chosen(hash, s, t, pair)
    case SwapNext(pair) => Chosen(hash, s, t, pair)
    case OpenPair => t.AdoptTask?
    case ReopenPair(pair) => t.AdoptTask? && Chosen(hash, s, t, pair)
    case Finishing(pair) => Moved(hash, s, t, pair)
    case VerifyBack(pair) => Moved(hash, s, t, pair)
    case SwapBack(pair) => Moved(hash, s, t, pair)
  }

  /** The pair a call is about to make active is published under its id; a checkpoint's grew from the HEAD it expects.
      */
  ghost predicate Chosen(hash: Pair -> Digest, s: Store, t: Task, pair: Pair) {
    && !t.BranchTask?
    && Published(s, hash(pair), t.app) && s.objects[hash(pair)] == pair && pair.id == t.id
    && (t.CheckpointTask? ==> pair.parent == t.expected)
  }

  ghost predicate Moved(hash: Pair -> Digest, s: Store, t: Task, pair: Pair) {
    t.AdoptTask? && Chosen(hash, s, t, pair) && (t.expected.Some? ==> Published(s, t.expected.value, t.app))
  }

  ghost predicate Inv(hash: Pair -> Digest, s: System) {
    StoreInv(hash, s.store) && forall c :: c in s.tasks ==> TaskInv(hash, s.store, s.tasks[c])
  }

  /** Nothing written is ever changed: objects and markers only gain entries, moves are only appended. */
  ghost predicate Grows(s: Store, n: Store) {
    && (forall d :: d in s.objects ==> d in n.objects && n.objects[d] == s.objects[d])
    && (forall id :: id in s.markers ==> id in n.markers && n.markers[id] == s.markers[id])
    && s.moves <= n.moves
  }

  // ---- Preservation, one store access at a time.

  lemma {:induction false} WriteKeeps(hash: Pair -> Digest, s: Store, pair: Pair)
    requires StoreInv(hash, s) && WriteObject(hash, s, pair).Some?
    requires pair.parent.Some? ==> pair.parent.value in s.objects && s.objects[pair.parent.value].app == pair.app
    ensures StoreInv(hash, WriteObject(hash, s, pair).value) && Grows(s, WriteObject(hash, s, pair).value)
  {
    var n := WriteObject(hash, s, pair).value;
    forall d | d in n.objects ensures ObjectHolds(hash, n, d) {
      if d in s.objects { assert ObjectHolds(hash, s, d); }
      if pair.parent.Some? { assert ObjectHolds(hash, s, pair.parent.value); }
    }
    forall i | 0 <= i < |n.moves| ensures MoveHolds(n, i) { assert MoveHolds(s, i); }
    assert forall app :: ReadHead(n, app) == ReadHead(s, app);
  }

  lemma {:induction false} PublishKeeps(hash: Pair -> Digest, s: Store, pair: Pair)
    requires StoreInv(hash, s) && pair.id !in s.markers
    requires hash(pair) in s.objects && s.objects[hash(pair)] == pair
    ensures var n := s.(markers := s.markers[pair.id := hash(pair)]);
      StoreInv(hash, n) && Grows(s, n) && Published(n, hash(pair), pair.app)
  {
    var n := s.(markers := s.markers[pair.id := hash(pair)]);
    forall d | d in n.objects ensures ObjectHolds(hash, n, d) { assert ObjectHolds(hash, s, d); }
    forall i | 0 <= i < |n.moves| ensures MoveHolds(n, i) { assert MoveHolds(s, i); }
    assert forall app :: ReadHead(n, app) == ReadHead(s, app);
  }

  lemma {:induction false} SwapKeepsMoves(s: Store, app: AppId, expected: Option<Digest>, next: Option<Digest>,
                                          mover: Mover)
    requires MovesHold(s)
    requires next.Some? ==> Published(s, next.value, app)
    requires next.None? ==> mover.ByUndo?
    requires mover.ByCheckpoint? ==> next.Some? && s.objects[next.value].parent == expected
    ensures MovesHold(SwapHead(s, app, expected, next, mover))
  {
    var n := SwapHead(s, app, expected, next, mover);
    if n != s {
      var m := Move(app, expected, next, mover);
      assert n.moves == s.moves + [m] && n.moves[..|s.moves|] == s.moves;
      forall i | 0 <= i < |n.moves| ensures MoveHolds(n, i) {
        assert n.moves[..i] == s.moves[..i];
        if i < |s.moves| {
          assert MoveHolds(s, i) && n.moves[i] == s.moves[i];
        } else {
          assert s.moves[..i] == s.moves && ReadHead(s, app) == After(s.moves, app);
        }
      }
      forall a: AppId ensures ReadHead(n, a) == After(n.moves, a) {
        assert ReadHead(s, a) == After(s.moves, a);
      }
    }
  }

  lemma {:induction false} SwapKeeps(hash: Pair -> Digest, s: Store, app: AppId, expected: Option<Digest>,
                                     next: Option<Digest>, mover: Mover)
    requires StoreInv(hash, s)
    requires next.Some? ==> Published(s, next.value, app)
    requires next.None? ==> mover.ByUndo?
    requires mover.ByCheckpoint? ==> next.Some? && s.objects[next.value].parent == expected
    ensures StoreInv(hash, SwapHead(s, app, expected, next, mover)) && Grows(s, SwapHead(s, app, expected, next, mover))
  {
    var n := SwapHead(s, app, expected, next, mover);
    SwapKeepsMoves(s, app, expected, next, mover);
    forall d | d in n.objects ensures ObjectHolds(hash, n, d) { assert ObjectHolds(hash, s, d); }
  }

  lemma {:induction false} TaskSurvives(hash: Pair -> Digest, s: Store, n: Store, t: Task)
    requires Grows(s, n) && TaskInv(hash, s, t)
    ensures TaskInv(hash, n, t)
  {}

  /** A HEAD that reads as expected names a published pair of its app. */
  lemma {:induction false} ExpectedIsPublished(hash: Pair -> Digest, s: Store, app: AppId, expected: Option<Digest>)
    requires StoreInv(hash, s) && ReadHead(s, app) == Reads(expected)
    ensures expected.Some? ==> Published(s, expected.value, app)
  {}

  ghost predicate AdvanceHolds(hash: Pair -> Digest, s: Store, t: Task, c: Captured) {
    var (n, next) := Advance(hash, s, t, c);
    StoreInv(hash, n) && Grows(s, n) && (next.Some? ==> TaskInv(hash, n, next.value))
  }

  lemma {:induction false} AdvanceWrites(hash: Pair -> Digest, s: Store, t: Task, c: Captured)
    requires StoreInv(hash, s) && TaskInv(hash, s, t) && t.at.WritePair?
    ensures AdvanceHolds(hash, s, t, c)
  {
    var pair := Pair(t.id, t.at.parent, t.app, c.state, c.outbox, c.checkpoint);
    if WriteObject(hash, s, pair).Some? { WriteKeeps(hash, s, pair); }
  }

  lemma {:induction false} AdvancePublishes(hash: Pair -> Digest, s: Store, t: Task, c: Captured)
    requires StoreInv(hash, s) && TaskInv(hash, s, t) && t.at.PublishMarker?
    ensures AdvanceHolds(hash, s, t, c)
  {
    if t.id !in s.markers { PublishKeeps(hash, s, t.at.pair); }
  }

  lemma {:induction false} AdvanceSwaps(hash: Pair -> Digest, s: Store, t: Task, c: Captured)
    requires StoreInv(hash, s) && TaskInv(hash, s, t) && (t.at.SwapNext? || t.at.SwapBack?)
    ensures AdvanceHolds(hash, s, t, c)
  {
    var pair := t.at.pair;
    if t.at.SwapNext? {
      SwapKeeps(hash, s, t.app, t.expected, Some(hash(pair)), if t.AdoptTask? then ByAdopt else ByCheckpoint);
      if ReadHead(s, t.app) == Reads(t.expected) { ExpectedIsPublished(hash, s, t.app, t.expected); }
    } else {
      SwapKeeps(hash, s, t.app, Some(hash(pair)), t.expected, ByUndo);
    }
  }

  lemma {:induction false} AdvanceKeeps(hash: Pair -> Digest, s: Store, t: Task, c: Captured)
    requires StoreInv(hash, s) && TaskInv(hash, s, t)
    ensures AdvanceHolds(hash, s, t, c)
  {
    if t.at.WritePair? {
      AdvanceWrites(hash, s, t, c);
    } else if t.at.PublishMarker? {
      AdvancePublishes(hash, s, t, c);
    } else if t.at.SwapNext? || t.at.SwapBack? {
      AdvanceSwaps(hash, s, t, c);
    } else {
      assert Advance(hash, s, t, c).0 == s;
    }
  }

  lemma {:induction false} NextKeepsInv(hash: Pair -> Digest, s: System, e: Event)
    requires Inv(hash, s)
    ensures Inv(hash, Next(hash, s, e)) && Grows(s.store, Next(hash, s, e).store)
  {
    var n := Next(hash, s, e);
    if e.Take? && e.client in s.tasks {
      AdvanceKeeps(hash, s.store, s.tasks[e.client], e.captured);
      forall c | c in n.tasks ensures TaskInv(hash, n.store, n.tasks[c]) {
        if c != e.client { TaskSurvives(hash, s.store, n.store, s.tasks[c]); }
      }
    }
  }

  lemma {:induction false} RunKeepsInv(hash: Pair -> Digest, events: seq<Event>)
    ensures Inv(hash, Run(hash, events))
    decreases |events|
  {
    if events != [] {
      RunKeepsInv(hash, events[..|events| - 1]);
      NextKeepsInv(hash, Run(hash, events[..|events| - 1]), events[|events| - 1]);
    }
  }

  // ---- The results.

  /** Whatever clients race, a HEAD that can be read names a published pair of its own app. */
  lemma {:induction false} HeadNamesPublishedPair(hash: Pair -> Digest, events: seq<Event>, app: AppId)
    ensures var s := Run(hash, events).store;
      match ReadHead(s, app)
      case Reads(Some(d)) => Published(s, d, app) && hash(s.objects[d]) == d
      case _ => true
  {
    RunKeepsInv(hash, events);
  }

  /** A later store keeps every pair, every marker and every past HEAD move of an earlier one. */
  lemma {:induction false} NothingRepoints(hash: Pair -> Digest, events: seq<Event>, later: seq<Event>)
    ensures Grows(Run(hash, events).store, Run(hash, events + later).store)
    decreases |later|
  {
    if later == [] {
      assert events + later == events;
    } else {
      var before, all := events + later[..|later| - 1], events + later;
      assert all[..|all| - 1] == before;
      NothingRepoints(hash, events, later[..|later| - 1]);
      StepGrows(hash, before, all[|all| - 1]);
      assert all == before + [all[|all| - 1]];
      GrowsOn(Run(hash, events).store, Run(hash, before).store, Run(hash, all).store);
    }
  }

  lemma {:induction false} StepGrows(hash: Pair -> Digest, events: seq<Event>, e: Event)
    ensures Grows(Run(hash, events).store, Run(hash, events + [e]).store)
  {
    RunKeepsInv(hash, events);
    RunsOn(hash, events, e);
    NextKeepsInv(hash, Run(hash, events), e);
  }

  lemma {:induction false} GrowsOn(a: Store, b: Store, c: Store)
    requires Grows(a, b) && Grows(b, c)
    ensures Grows(a, c)
  {
  }

  /** `chain` lists a pair and its ancestors, each the parent of the one before, down to one without a parent. */
  ghost predicate Lineage(s: Store, d: Digest, chain: seq<Digest>) {
    && chain != [] && chain[0] == d
    && (forall i :: 0 <= i < |chain| ==> chain[i] in s.objects)
    && (forall i :: 0 <= i < |chain| - 1 ==> s.objects[chain[i]].parent == Some(chain[i + 1]))
    && s.objects[chain[|chain| - 1]].parent.None?
  }

  lemma {:induction false} LineageExists(hash: Pair -> Digest, s: Store, d: Digest) returns (chain: seq<Digest>)
    requires ObjectsHold(hash, s) && d in s.objects && d in s.born
    ensures Lineage(s, d, chain)
    ensures forall i :: 0 <= i < |chain| ==> s.objects[chain[i]].app == s.objects[d].app
    ensures forall i :: 0 <= i < |chain| ==> chain[i] in s.born && s.born[chain[i]] <= s.born[d] - i
    decreases s.born[d]
  {
    assert ObjectHolds(hash, s, d);
    var parent := s.objects[d].parent;
    if parent.None? {
      chain := [d];
    } else {
      var rest := LineageExists(hash, s, parent.value);
      chain := [d] + rest;
    }
  }

  /** In every reachable store the ancestry of every pair is finite, stored and within one app. */
  lemma {:induction false} LineageIsFiniteInOneApp(hash: Pair -> Digest, events: seq<Event>, d: Digest)
    requires d in Run(hash, events).store.objects
    ensures var s := Run(hash, events).store;
      exists chain :: Lineage(s, d, chain)
        && forall i :: 0 <= i < |chain| ==> s.objects[chain[i]].app == s.objects[d].app
  {
    RunKeepsInv(hash, events);
    var s := Run(hash, events).store;
    assert ObjectHolds(hash, s, d);
    var chain := LineageExists(hash, s, d);
  }

  /** No HEAD move is lost: each swap replaced what the previous move of its app had left, the HEAD reads as the last
      one left it, and the pair a checkpoint installed has the HEAD it replaced as parent. */
  lemma {:induction false} CheckpointReplacesItsParent(hash: Pair -> Digest, events: seq<Event>, i: nat)
    requires i < |Run(hash, events).store.moves|
    ensures var s := Run(hash, events).store; var m := s.moves[i];
      && After(s.moves[..i], m.app) == Reads(m.from)
      && ReadHead(s, m.app) == After(s.moves, m.app)
      && (m.mover.ByCheckpoint? ==> m.to.Some? && m.to.value in s.objects && s.objects[m.to.value].parent == m.from)
  {
    RunKeepsInv(hash, events);
    assert MoveHolds(Run(hash, events).store, i);
  }

  /** Once unreadable, a HEAD takes no further swap. */
  lemma {:induction false} UnreadableStays(hash: Pair -> Digest, s: System, e: Event, app: AppId)
    requires ReadHead(s.store, app).Unreadable?
    ensures ReadHead(Next(hash, s, e).store, app).Unreadable?
  {
    if e.Take? && e.client in s.tasks {
      var t := s.tasks[e.client];
      match t.at
      case SwapNext(_) =>
      case SwapBack(_) =>
      case WritePair(_) =>
      case _ =>
    }
  }

  lemma {:induction false} AfterUnreadable(hash: Pair -> Digest, s: Store, n: nat, app: AppId)
    requires MovesHold(s) && n <= |s.moves|
    ensures After(s.moves[..n], app).Unreadable? <==>
      exists i :: 0 <= i < n && s.moves[i].app == app && s.moves[i].to.None?
    decreases n
  {
    if n > 0 {
      var m := s.moves[n - 1];
      assert s.moves[..n][..n - 1] == s.moves[..n - 1] && s.moves[..n][n - 1] == m;
      assert MoveHolds(s, n - 1);
      AfterUnreadable(hash, s, n - 1, app);
    }
  }

  /** A HEAD is unreadable exactly when some adopt that had found no active pair undid its own move. */
  lemma {:induction false} UnreadableExactlyAfterUndoToNull(hash: Pair -> Digest, events: seq<Event>, app: AppId)
    ensures var s := Run(hash, events).store;
      ReadHead(s, app).Unreadable? <==>
        exists i :: 0 <= i < |s.moves| && s.moves[i].app == app && s.moves[i].to.None? && s.moves[i].mover.ByUndo?
  {
    RunKeepsInv(hash, events);
    var s := Run(hash, events).store;
    assert s.moves[..|s.moves|] == s.moves;
    AfterUnreadable(hash, s, |s.moves|, app);
    forall i | 0 <= i < |s.moves| ensures s.moves[i].to.None? ==> s.moves[i].mover.ByUndo? { assert MoveHolds(s, i); }
  }

  /** Moving a HEAD and then undoing the move gives back the reading exactly when there was an active pair to go back
      to; with none the HEAD is left unreadable. */
  lemma {:induction false} UndoRestoresExactly(s: Store, app: AppId, expected: Option<Digest>, next: Digest)
    requires ReadHead(s, app) == Reads(expected)
    ensures var moved := SwapHead(s, app, expected, Some(next), ByAdopt);
      var undone := SwapHead(moved, app, Some(next), expected, ByUndo);
      && ReadHead(moved, app) == Reads(Some(next))
      && (ReadHead(undone, app) == ReadHead(s, app) <==> expected.Some?)
      && (expected.None? ==> ReadHead(undone, app).Unreadable?)
  {
    assert SwapHead(s, app, expected, Some(next), ByAdopt).heads[app] == Points(next);
  }

  // ---- One such run ----

  const CAPTURED := Captured(0, [], 0)

  function Checkpointing(at: Step): Task { CheckpointTask(1, 7, None, at) }

  function Adopting(at: Step): Task { AdoptTask(1, 7, None, at) }

  /** A client's next `count` store accesses, nothing in between. */
  function Accesses(client: nat, count: nat): seq<Event> {
    if count == 0 then [] else Accesses(client, count - 1) + [Take(client, CAPTURED)]
  }

  /** The first checkpoint of app 1 publishes pair 7 and dies before it moves HEAD. */
  function PublishedOnly(): seq<Event> { [Start(0, Checkpointing(OpenParent))] + Accesses(0, 5) + [Quit(0)] }

  /** Then an adopt of that pair that expects no active one: open, open again, verify, move HEAD, fail to resume,
      verify, move HEAD back. */
  function FirstAdoptUndone(): seq<Event> { PublishedOnly() + [Start(1, Adopting(OpenPair))] + Accesses(1, 7) }

  lemma {:induction false} RunsOn(hash: Pair -> Digest, events: seq<Event>, e: Event)
    ensures Run(hash, events + [e]) == Next(hash, Run(hash, events), e)
  {
    assert (events + [e])[..|events + [e]| - 1] == events;
  }

  /** One more access of the only client. */
  lemma {:induction false} RunsAccess(hash: Pair -> Digest, events: seq<Event>, client: nat, count: nat,
                                      s: Store, t: Task, n: Store, next: Task)
    requires count > 0 && Run(hash, events + Accesses(client, count - 1)) == System(s, map[client := t])
    requires Advance(hash, s, t, CAPTURED) == (n, Some(next))
    ensures Run(hash, events + Accesses(client, count)) == System(n, map[client := next])
  {
    AccessesOneMore(hash, events, client, count);
    assert map[client := t][client := next] == map[client := next];
  }

  lemma {:induction false} AccessesOneMore(hash: Pair -> Digest, events: seq<Event>, client: nat, count: nat)
    requires count > 0
    ensures Run(hash, events + Accesses(client, count))
         == Next(hash, Run(hash, events + Accesses(client, count - 1)), Take(client, CAPTURED))
  {
    var before := events + Accesses(client, count - 1);
    assert events + Accesses(client, count) == before + [Take(client, CAPTURED)];
    RunsOn(hash, before, Take(client, CAPTURED));
  }

  function FirstPair(): Pair { Pair(7, None, 1, 0, [], 0) }

  /** Pair 7 written and published, no HEAD yet. */
  function AfterPublish(hash: Pair -> Digest): Store {
    var d := hash(FirstPair());
    Store(map[d := FirstPair()], map[7 := d], map[], map[d := 0], 1, [])
  }

  lemma {:induction false} CheckpointStarts(hash: Pair -> Digest)
    ensures Run(hash, [Start(0, Checkpointing(OpenParent))])
         == System(EMPTY, map[0 := Checkpointing(CheckActive(None))])
  {
    var start := Start(0, Checkpointing(OpenParent));
    RunsOn(hash, [], start);
    assert [] + [start] == [start];
  }

  lemma {:induction false} CheckpointWrites(hash: Pair -> Digest)
    ensures Run(hash, [Start(0, Checkpointing(OpenParent))] + Accesses(0, 3))
         == System(EMPTY, map[0 := Checkpointing(WritePair(None))])
  {
    var start := [Start(0, Checkpointing(OpenParent))];
    CheckpointStarts(hash);
    assert start + Accesses(0, 0) == start;
    RunsAccess(hash, start, 0, 1, EMPTY, Checkpointing(CheckActive(None)), EMPTY, Checkpointing(CheckMarker(None)));
    RunsAccess(hash, start, 0, 2, EMPTY, Checkpointing(CheckMarker(None)), EMPTY, Checkpointing(CheckParent(None)));
    RunsAccess(hash, start, 0, 3, EMPTY, Checkpointing(CheckParent(None)), EMPTY, Checkpointing(WritePair(None)));
  }

  /** The pair written, its marker not yet. */
  function AfterWrite(hash: Pair -> Digest): Store { AfterPublish(hash).(markers := map[]) }

  lemma {:induction false} FirstWrite(hash: Pair -> Digest)
    ensures Advance(hash, EMPTY, Checkpointing(WritePair(None)), CAPTURED)
         == (AfterWrite(hash), Some(Checkpointing(PublishMarker(FirstPair()))))
  {
    assert WriteObject(hash, EMPTY, FirstPair()) == Some(AfterWrite(hash));
  }

  lemma {:induction false} FirstPublish(hash: Pair -> Digest)
    ensures Advance(hash, AfterWrite(hash), Checkpointing(PublishMarker(FirstPair())), CAPTURED)
         == (AfterPublish(hash), Some(Checkpointing(VerifyNext(FirstPair()))))
  {
    assert map[][7 := hash(FirstPair())] == map[7 := hash(FirstPair())];
  }

  lemma {:induction false} PublishRuns(hash: Pair -> Digest)
    ensures Run(hash, PublishedOnly()) == System(AfterPublish(hash), map[])
  {
    var start := [Start(0, Checkpointing(OpenParent))];
    var last := Checkpointing(VerifyNext(FirstPair()));
    CheckpointWrites(hash);
    FirstWrite(hash);
    FirstPublish(hash);
    RunsAccess(hash, start, 0, 4, EMPTY, Checkpointing(WritePair(None)),
               AfterWrite(hash), Checkpointing(PublishMarker(FirstPair())));
    RunsAccess(hash, start, 0, 5, AfterWrite(hash), Checkpointing(PublishMarker(FirstPair())),
               AfterPublish(hash), last);
    RunsOn(hash, start + Accesses(0, 5), Quit(0));
    assert map[0 := last] - {0} == map[];
  }

  /** HEAD on pair 7. */
  function AfterMove(hash: Pair -> Digest): Store {
    var d := hash(FirstPair());
    AfterPublish(hash).(heads := map[1 := Points(d)], moves := [Move(1, None, Some(d), ByAdopt)])
  }

  lemma {:induction false} FirstMove(hash: Pair -> Digest)
    ensures Advance(hash, AfterPublish(hash), Adopting(SwapNext(FirstPair())), CAPTURED)
         == (AfterMove(hash), Some(Adopting(Finishing(FirstPair()))))
  {
    assert SwapHead(AfterPublish(hash), 1, None, Some(hash(FirstPair())), ByAdopt) == AfterMove(hash);
  }

  lemma {:induction false} FirstOpen(hash: Pair -> Digest, at: Step, next: Step)
    requires || (at == OpenPair && next == ReopenPair(FirstPair()))
             || (at == ReopenPair(FirstPair()) && next == VerifyNext(FirstPair()))
             || (at == VerifyNext(FirstPair()) && next == SwapNext(FirstPair()))
    ensures Advance(hash, AfterPublish(hash), Adopting(at), CAPTURED) == (AfterPublish(hash), Some(Adopting(next)))
  {
    assert ReadPair(hash, AfterPublish(hash), 7) == Some(FirstPair());
  }

  lemma {:induction false} AdoptVerifies(hash: Pair -> Digest, start: seq<Event>)
    requires Run(hash, start + Accesses(1, 0)) == System(AfterPublish(hash), map[1 := Adopting(OpenPair)])
    ensures Run(hash, start + Accesses(1, 3)) == System(AfterPublish(hash), map[1 := Adopting(SwapNext(FirstPair()))])
  {
    var s, p := AfterPublish(hash), FirstPair();
    FirstOpen(hash, OpenPair, ReopenPair(p));
    FirstOpen(hash, ReopenPair(p), VerifyNext(p));
    FirstOpen(hash, VerifyNext(p), SwapNext(p));
    RunsAccess(hash, start, 1, 1, s, Adopting(OpenPair), s, Adopting(ReopenPair(p)));
    RunsAccess(hash, start, 1, 2, s, Adopting(ReopenPair(p)), s, Adopting(VerifyNext(p)));
    RunsAccess(hash, start, 1, 3, s, Adopting(VerifyNext(p)), s, Adopting(SwapNext(p)));
  }

  lemma {:induction false} AdoptMoves(hash: Pair -> Digest, start: seq<Event>)
    requires Run(hash, start + Accesses(1, 0)) == System(AfterPublish(hash), map[1 := Adopting(OpenPair)])
    ensures Run(hash, start + Accesses(1, 4)) == System(AfterMove(hash), map[1 := Adopting(Finishing(FirstPair()))])
  {
    var p := FirstPair();
    AdoptVerifies(hash, start);
    FirstMove(hash);
    RunsAccess(hash, start, 1, 4, AfterPublish(hash), Adopting(SwapNext(p)), AfterMove(hash), Adopting(Finishing(p)));
  }

  lemma {:induction false} FirstUndo(hash: Pair -> Digest)
    ensures var d := hash(FirstPair());
      Advance(hash, AfterMove(hash), Adopting(SwapBack(FirstPair())), CAPTURED)
      == (AfterMove(hash).(heads := map[1 := HoldsNull],
                           moves := [Move(1, None, Some(d), ByAdopt), Move(1, Some(d), None, ByUndo)]), None)
  {
    var d := hash(FirstPair());
    var first, second := Move(1, None, Some(d), ByAdopt), Move(1, Some(d), None, ByUndo);
    assert map[1 := Points(d)][1 := HoldsNull] == map[1 := HoldsNull];
    assert [first] + [second] == [first, second];
    assert SwapHead(AfterMove(hash), 1, Some(d), None, ByUndo)
        == AfterMove(hash).(heads := map[1 := HoldsNull], moves := [first, second]);
  }

  lemma {:induction false} FirstTurn(hash: Pair -> Digest)
    ensures var s, p := AfterMove(hash), FirstPair();
      && Advance(hash, s, Adopting(Finishing(p)), CAPTURED) == (s, Some(Adopting(VerifyBack(p))))
      && Advance(hash, s, Adopting(VerifyBack(p)), CAPTURED) == (s, Some(Adopting(SwapBack(p))))
  {
  }

  lemma {:induction false} AdoptTurnsBack(hash: Pair -> Digest, start: seq<Event>)
    requires Run(hash, start + Accesses(1, 4)) == System(AfterMove(hash), map[1 := Adopting(Finishing(FirstPair()))])
    ensures Run(hash, start + Accesses(1, 6)) == System(AfterMove(hash), map[1 := Adopting(SwapBack(FirstPair()))])
  {
    var s, p := AfterMove(hash), FirstPair();
    FirstTurn(hash);
    RunsAccess(hash, start, 1, 5, s, Adopting(Finishing(p)), s, Adopting(VerifyBack(p)));
    RunsAccess(hash, start, 1, 6, s, Adopting(VerifyBack(p)), s, Adopting(SwapBack(p)));
  }

  lemma {:induction false} AdoptUndoes(hash: Pair -> Digest, start: seq<Event>)
    requires Run(hash, start + Accesses(1, 6)) == System(AfterMove(hash), map[1 := Adopting(SwapBack(FirstPair()))])
    ensures Run(hash, start + Accesses(1, 7)).store
         == Advance(hash, AfterMove(hash), Adopting(SwapBack(FirstPair())), CAPTURED).0
  {
    AccessesOneMore(hash, start, 1, 7);
  }

  /** A run in which the first adopt of app 1 is undone: its HEAD, absent before the adopt, cannot be read after it. */
  lemma {:induction false} UndoneFirstAdoptLosesTheHead(hash: Pair -> Digest)
    ensures ReadHead(Run(hash, PublishedOnly()).store, 1) == Reads(None)
    ensures Run(hash, FirstAdoptUndone()).store.moves
         == [Move(1, None, Some(hash(FirstPair())), ByAdopt), Move(1, Some(hash(FirstPair())), None, ByUndo)]
    ensures ReadHead(Run(hash, FirstAdoptUndone()).store, 1).Unreadable?
  {
    PublishRuns(hash);
    var start := PublishedOnly() + [Start(1, Adopting(OpenPair))];
    RunsOn(hash, PublishedOnly(), Start(1, Adopting(OpenPair)));
    assert start + Accesses(1, 0) == start;
    AdoptMoves(hash, start);
    AdoptTurnsBack(hash, start);
    AdoptUndoes(hash, start);
    FirstUndo(hash);
  }

  /** A branch only adds a candidate: it never moves a HEAD. */
  lemma {:induction false} BranchMovesNoHead(hash: Pair -> Digest, events: seq<Event>, client: nat, c: Captured)
    requires client in Run(hash, events).tasks && Run(hash, events).tasks[client].BranchTask?
    ensures var s := Run(hash, events); var n := Next(hash, s, Take(client, c));
      n.store.heads == s.store.heads && n.store.moves == s.store.moves
  {
    RunKeepsInv(hash, events);
    var s := Run(hash, events);
    assert TaskInv(hash, s.store, s.tasks[client]);
  }
}
