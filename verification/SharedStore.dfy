/** The pair store as one coordinator sees it: between any two of its accesses other clients may have moved on. */
module SharedStore {
  import opened Options
  import opened PairStore
  import opened AppTarget

  /** What other clients can have done in between: nothing written changed, and a HEAD that could not be read still
      cannot be read. */
  ghost predicate Rely(s: Store, n: Store) {
    Grows(s, n) && forall app :: ReadHead(s, app).Unreadable? ==> ReadHead(n, app).Unreadable?
  }

  lemma {:induction false} EveryStepIsReliable(hash: Pair -> Digest, s: System, e: Event)
    requires Inv(hash, s)
    ensures Rely(s.store, Next(hash, s, e).store)
  {
    NextKeepsInv(hash, s, e);
    forall app: AppId | ReadHead(s.store, app).Unreadable?
      ensures ReadHead(Next(hash, s, e).store, app).Unreadable?
    {
      UnreadableStays(hash, s, e, app);
    }
  }

  lemma {:induction false} RelyChains(a: Store, b: Store, c: Store)
    requires Rely(a, b) && (Rely(b, c) || (Grows(b, c) && b.heads == c.heads))
    ensures Rely(a, c)
  {
    assert forall app :: ReadHead(b, app).Unreadable? ==> ReadHead(c, app).Unreadable?;
  }

  lemma {:induction false} GrowsChains(a: Store, b: Store, c: Store)
    requires Grows(a, b) && Grows(b, c)
    ensures Grows(a, c)
  {}

  lemma {:induction false} OthersSurvive(hash: Pair -> Digest, s: System, n: Store)
    requires Inv(hash, s) && StoreInv(hash, n) && Grows(s.store, n)
    ensures Inv(hash, System(n, s.tasks))
  {
    forall c | c in s.tasks ensures TaskInv(hash, n, s.tasks[c]) { TaskSurvives(hash, s.store, n, s.tasks[c]); }
  }

  /** The store, the calls of its other clients, and which of its HEAD moves were made through this object. */
  class Shared {
    const hash: Pair -> Digest
    var store: Store
    var others: map<nat, Task>
    ghost var own: seq<nat>

    ghost predicate Valid()
      reads this
    {
      Inv(hash, System(store, others)) && forall k :: 0 <= k < |own| ==> own[k] < |store.moves|
    }

    constructor (hash: Pair -> Digest)
      ensures Valid() && this.hash == hash && own == [] && store == EMPTY
    {
      this.hash := hash;
      store := EMPTY;
      others := map[];
      own := [];
    }

    /** The pair is stored under its digest and its marker names it. */
    ghost predicate Stored(pair: Pair)
      reads this
    {
      Published(store, hash(pair), pair.app) && store.objects[hash(pair)] == pair
    }

    /** The history of own moves ends with these. */
    ghost predicate OwnEnds(before: seq<nat>, moves: seq<Move>)
      reads this
    {
      && |own| == |before| + |moves| && own[..|before|] == before
      && forall k :: 0 <= k < |moves| ==>
        own[|before| + k] < |store.moves| && store.moves[own[|before| + k]] == moves[k]
    }

    /** Any number of steps of any other clients. */
    method OtherClients()
      requires Valid()
      modifies this`store, this`others
      ensures Valid() && Rely(old(store), store)
    {
      var steps: int := *;
      for i := 0 to if steps > 0 then steps else 0
        invariant Valid() && Rely(old(store), store)
      {
        var e: Event := *;
        NextKeepsInv(hash, System(store, others), e);
        EveryStepIsReliable(hash, System(store, others), e);
        var n := Next(hash, System(store, others), e);
        store, others := n.store, n.tasks;
      }
    }

    method OpenPair(id: PairId) returns (r: Result<Pair>)
      requires Valid()
      modifies this`store, this`others
      ensures r.Threw? ==> Plain(r.error)
      ensures Valid() && Rely(old(store), store)
      ensures r.Done? ==> Stored(r.value) && r.value.id == id
    {
      OtherClients();
      var fails: bool := *;
      if fails { return Threw(StoreFailed); }
      var found := ReadPair(hash, store, id);
      r := if found.Some? then Done(found.value) else Threw(PairNotFound);
    }

    /** The active pair of an app, if its HEAD can be read. */
    method Active(app: AppId) returns (r: Result<Option<Digest>>)
      requires Valid()
      modifies this`store, this`others
      ensures r.Threw? ==> Plain(r.error)
      ensures Valid() && Rely(old(store), store)
      ensures r.Done? && r.value.Some? ==> Published(store, r.value.value, app)
    {
      OtherClients();
      var fails: bool := *;
      if fails || ReadHead(store, app).Unreadable? { return Threw(StoreFailed); }
      r := Done(ReadHead(store, app).digest);
    }

    /** The object of a pair is written; nothing else changes. */
    method WritePair(pair: Pair) returns (r: Result<()>)
      requires Valid()
      requires pair.parent.Some? ==>
        pair.parent.value in store.objects && store.objects[pair.parent.value].app == pair.app
      modifies this`store
      ensures r.Threw? ==> Plain(r.error)
      ensures Valid() && Grows(old(store), store) && store.heads == old(store.heads)
      ensures r.Done? ==> hash(pair) in store.objects && store.objects[hash(pair)] == pair
    {
      var written := WriteObject(hash, store, pair);
      var fails: bool := *;
      if written.None? || fails { return Threw(StoreFailed); }
      WriteKeeps(hash, store, pair);
      OthersSurvive(hash, System(store, others), written.value);
      store := written.value;
      r := Done(());
    }

    /** The marker of a pair is swapped from nothing to its digest. */
    method PublishPair(pair: Pair) returns (r: Result<()>)
      requires Valid() && hash(pair) in store.objects && store.objects[hash(pair)] == pair
      modifies this`store
      ensures r.Threw? ==> Plain(r.error)
      ensures Valid() && Grows(old(store), store) && store.heads == old(store.heads)
      ensures r.Done? ==> Stored(pair)
    {
      var fails: bool := *;
      if fails { return Threw(StoreFailed); }
      if pair.id in store.markers { return Threw(HeadConflict); }
      PublishKeeps(hash, store, pair);
      OthersSurvive(hash, System(store, others), store.(markers := store.markers[pair.id := hash(pair)]));
      store := store.(markers := store.markers[pair.id := hash(pair)]);
      r := Done(());
    }

    /** Creates and publishes a candidate pair: its id unused, its parent stored and of the same app. */
    method CreateCandidate(pair: Pair) returns (r: Result<Pair>)
      requires Valid()
      modifies this`store, this`others
      ensures r.Threw? ==> Plain(r.error)
      ensures Valid() && Rely(old(store), store)
      ensures r.Done? ==> r.value == pair && Stored(pair)
    {
      OtherClients();
      if pair.id in store.markers { return Threw(PairExists); }
      if pair.parent.Some? {
        ghost var s0 := store;
        OtherClients();
        RelyChains(old(store), s0, store);
        var parent := ReadDigest(hash, store, pair.parent.value);
        if parent.None? { return Threw(PairNotFound); }
        if parent.value.app != pair.app { return Threw(IdentityMismatch); }
      }
      ghost var s1 := store;
      OtherClients();
      RelyChains(old(store), s1, store);
      ghost var s2 := store;
      var written := WritePair(pair);
      RelyChains(old(store), s2, store);
      if written.Threw? { return Threw(written.error); }
      ghost var s3 := store;
      OtherClients();
      RelyChains(old(store), s3, store);
      ghost var s4 := store;
      var published := PublishPair(pair);
      RelyChains(old(store), s4, store);
      r := if published.Threw? then Threw(published.error) else Done(pair);
    }

    /** The compare-and-swap itself, with nothing in between: either exactly that move is made, or none. */
    method Swap(app: AppId, expected: Option<Digest>, next: Option<Digest>, mover: Mover) returns (r: Result<()>)
      requires Valid()
      requires next.Some? ==> Published(store, next.value, app)
      requires next.None? ==> mover.ByUndo?
      requires mover.ByCheckpoint? ==> next.Some? && store.objects[next.value].parent == expected
      modifies this`store, this`own
      ensures r.Threw? ==> Plain(r.error)
      ensures Valid() && Grows(old(store), store)
      ensures r.Threw? ==> own == old(own) && store == old(store)
      ensures r.Done? ==> OwnEnds(old(own), [Move(app, expected, next, mover)])
      ensures r.Done? && expected.Some? ==> Published(store, expected.value, app)
      ensures r.Done? && next.None? ==> ReadHead(store, app).Unreadable?
    {
      var fails: bool := *;
      if fails { return Threw(StoreFailed); }
      if ReadHead(store, app) != Reads(expected) { return Threw(HeadConflict); }
      var n := SwapHead(store, app, expected, next, mover);
      SwapKeeps(hash, store, app, expected, next, mover);
      ExpectedIsPublished(hash, store, app, expected);
      OthersSurvive(hash, System(store, others), n);
      store, own := n, own + [|store.moves|];
      r := Done(());
    }

    /** Moves an app's HEAD from what is expected to a published pair of that app, or to null. */
    method MoveActive(app: AppId, expected: Option<Digest>, next: Option<Digest>, mover: Mover) returns (r: Result<()>)
      requires Valid()
      requires next.Some? ==> next.value in store.objects && Published(store, next.value, store.objects[next.value].app)
      requires next.None? ==> mover.ByUndo?
      requires mover.ByCheckpoint? ==> next.Some? && store.objects[next.value].parent == expected
      modifies this
      ensures r.Threw? ==> Plain(r.error)
      ensures Valid() && Grows(old(store), store)
      ensures r.Threw? ==> own == old(own)
      ensures r.Done? ==> OwnEnds(old(own), [Move(app, expected, next, mover)])
      ensures r.Done? && expected.Some? ==> Published(store, expected.value, app)
      ensures r.Done? && next.None? ==> ReadHead(store, app).Unreadable?
    {
      if next.Some? {
        OtherClients();
        var pair := ReadDigest(hash, store, next.value);
        var fails: bool := *;
        if fails || pair.None? { return Threw(StoreFailed); }
        if pair.value.app != app { return Threw(IdentityMismatch); }
      }
      ghost var s1 := store;
      OtherClients();
      assert Grows(old(store), store) by { GrowsChains(old(store), s1, store); }
      ghost var s2 := store;
      r := Swap(app, expected, next, mover);
      assert Grows(old(store), store) by { GrowsChains(old(store), s2, store); }
    }
  }
}
