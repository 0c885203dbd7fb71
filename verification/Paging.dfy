/** An observed inventory handed out page by page: each page but the last comes with a continuation that serves the next
    page once, to the session it was given to, while the document epoch stands. */
module Paging {
  import opened Options

  type Item = nat
  type SessionKey = nat
  type Token = nat
  type Ref = nat
  type Epoch = nat

  datatype Page = Page(nodes: seq<Item>, offset: nat, nextOffset: nat, total: nat, complete: bool,
                       continuation: Option<Token>)

  datatype Answer = Served(page: Page) | ContinuationInvalid | ContinuationExpired | ContinuationStale | TooLarge
                  | PageSizeInvalid

  // ---- The pages of a list.

  ghost function Pages(nodes: seq<Item>, pageSize: nat): seq<seq<Item>>
    requires pageSize > 0
  {
    if |nodes| <= pageSize then [nodes] else [nodes[..pageSize]] + Pages(nodes[pageSize..], pageSize)
  }

  ghost function Concat(pages: seq<seq<Item>>): seq<Item> {
    if pages == [] then [] else pages[0] + Concat(pages[1..])
  }

  lemma {:induction false} TimesMonotone(a: nat, b: nat, d: nat)
    requires a <= b
    ensures a * d <= b * d
    decreases b - a
  {
    if a < b {
      TimesMonotone(a, b - 1, d);
      assert b * d == (b - 1) * d + d;
    }
  }

  lemma {:induction false} QuotientIs(x: nat, d: nat, q: nat)
    requires d > 0 && q * d <= x < q * d + d
    ensures x / d == q
  {
    var k := x / d;
    assert x == k * d + x % d && (k + 1) * d == k * d + d && (q + 1) * d == q * d + d;
    if k < q {
      TimesMonotone(k + 1, q, d);
    } else if k > q {
      TimesMonotone(q + 1, k, d);
    }
  }

  lemma {:induction false} PagesCounted(nodes: seq<Item>, pageSize: nat)
    requires pageSize > 0 && nodes != []
    ensures (|Pages(nodes, pageSize)| - 1) * pageSize < |nodes| <= (|Pages(nodes, pageSize)| - 1) * pageSize + pageSize
    decreases |nodes|
  {
    if |nodes| > pageSize {
      PagesCounted(nodes[pageSize..], pageSize);
      var k := |Pages(nodes[pageSize..], pageSize)|;
      assert k * pageSize == (k - 1) * pageSize + pageSize;
    }
  }

  lemma {:induction false} PagesConcat(nodes: seq<Item>, pageSize: nat)
    requires pageSize > 0
    ensures Concat(Pages(nodes, pageSize)) == nodes
    ensures forall i :: 0 <= i < |Pages(nodes, pageSize)| ==> |Pages(nodes, pageSize)[i]| <= pageSize
    ensures forall i :: 0 <= i < |Pages(nodes, pageSize)| - 1 ==> |Pages(nodes, pageSize)[i]| == pageSize
    decreases |nodes|
  {
    var pages := Pages(nodes, pageSize);
    if |nodes| <= pageSize {
      assert pages[1..] == [] && pages[0] + [] == nodes;
    } else {
      PagesConcat(nodes[pageSize..], pageSize);
      assert pages[1..] == Pages(nodes[pageSize..], pageSize);
      assert nodes[..pageSize] + nodes[pageSize..] == nodes;
    }
  }

  /** The pages put together are the list; no page is longer than asked for, only the last may be shorter, and there are
      max(1, ceil(n / pageSize)) of them. */
  lemma {:induction false} PagesRebuildTheList(nodes: seq<Item>, pageSize: nat)
    requires pageSize > 0
    ensures Concat(Pages(nodes, pageSize)) == nodes
    ensures |Pages(nodes, pageSize)| == if nodes == [] then 1 else (|nodes| + pageSize - 1) / pageSize
    ensures forall i :: 0 <= i < |Pages(nodes, pageSize)| ==> |Pages(nodes, pageSize)[i]| <= pageSize
    ensures forall i :: 0 <= i < |Pages(nodes, pageSize)| - 1 ==> |Pages(nodes, pageSize)[i]| == pageSize
  {
    PagesConcat(nodes, pageSize);
    if nodes != [] {
      PagesCounted(nodes, pageSize);
      var k := |Pages(nodes, pageSize)|;
      assert k * pageSize == (k - 1) * pageSize + pageSize;
      QuotientIs(|nodes| + pageSize - 1, pageSize, k);
    }
  }

  // ---- The inventory.

  /** One open inventory. */
  class InventoryState {
    const inventoryRef: Ref
    const sessionKey: SessionKey
    const epoch: Epoch
    const nodes: seq<Item>
    const pageSize: nat
    const expiresAt: int
    var offset: nat
    var tokenRef: Option<Token>

    constructor (inventoryRef: Ref, sessionKey: SessionKey, epoch: Epoch, nodes: seq<Item>, pageSize: nat,
                 expiresAt: int)
      ensures this.inventoryRef == inventoryRef && this.sessionKey == sessionKey && this.epoch == epoch
      ensures this.nodes == nodes && this.pageSize == pageSize && this.expiresAt == expiresAt
      ensures offset == 0 && tokenRef == None
    {
      this.inventoryRef, this.sessionKey, this.epoch, this.nodes := inventoryRef, sessionKey, epoch, nodes;
      this.pageSize, this.expiresAt := pageSize, expiresAt;
      offset, tokenRef := 0, None;
    }
  }

  class SemanticInventory {
    const maxItems: nat
    const maxPageItems: nat
    const ttl: nat
    var states: map<Ref, InventoryState>
    var tokens: map<Token, Ref>
    var sessions: map<SessionKey, Ref>
    /** Every state ever registered. */
    ghost var repr: set<InventoryState>
    /** The next fresh identifier; every token and reference given out is below it. */
    var nextId: nat

    ghost predicate StateHolds(r: Ref)
      reads this, repr
      requires r in states
    {
      var state := states[r];
      && state in repr && state.inventoryRef == r && r < nextId && 0 < state.pageSize
      && 0 < state.offset < |state.nodes|
      && state.tokenRef.Some? && state.tokenRef.value in tokens && tokens[state.tokenRef.value] == r
      && state.sessionKey in sessions && sessions[state.sessionKey] == r
    }

    /** Live states, their pending tokens and their sessions stand in one-to-one correspondence. */
    ghost predicate Valid()
      reads this, repr
    {
      && (forall r :: r in states ==> StateHolds(r))
      && (forall t :: t in tokens ==>
        t < nextId && tokens[t] in states && states[tokens[t]] in repr && states[tokens[t]].tokenRef == Some(t))
      && (forall s :: s in sessions ==> sessions[s] in states && states[sessions[s]].sessionKey == s)
    }

    constructor (maxItems: nat, maxPageItems: nat, ttl: nat)
      requires maxPageItems <= maxItems
      ensures Valid() && states == map[]
      ensures this.maxItems == maxItems && this.maxPageItems == maxPageItems && this.ttl == ttl
    {
      this.maxItems, this.maxPageItems, this.ttl := maxItems, maxPageItems, ttl;
      states, tokens, sessions, nextId := map[], map[], map[], 0;
      repr := {};
    }

    /** The token was given out once and will never serve a page again. */
    ghost predicate Spent(t: Token)
      reads this
    {
      t < nextId && t !in tokens
    }

    /** Where a session stands: its inventory, how far it is and which token it waits with. */
    ghost function View(s: SessionKey): Option<(InventoryState, nat, Option<Token>)>
      reads this, repr
    {
      if s in sessions && sessions[s] in states && states[sessions[s]] in repr then
        Some((states[sessions[s]], states[sessions[s]].offset, states[sessions[s]].tokenRef))
      else None
    }

    twostate predicate OnlySpends()
      reads this
    {
      old(nextId) <= nextId && forall t :: old(Spent(t)) ==> Spent(t)
    }

    /** A live state whose token is spent: the only one, and only inside an operation. */
    ghost predicate Between(state: InventoryState)
      reads this, repr, state
    {
      var r := state.inventoryRef;
      && r in states && states[r] == state && state in repr && r < nextId
      && 0 < state.pageSize && state.offset <= |state.nodes|
      && (state.tokenRef.None? || state.tokenRef.value !in tokens)
      && state.sessionKey in sessions && sessions[state.sessionKey] == r
      && (forall q :: q in states && q != r ==> StateHolds(q))
      && (forall t :: t in tokens ==>
        && t < nextId && tokens[t] != r && tokens[t] in states
        && states[tokens[t]] in repr && states[tokens[t]].tokenRef == Some(t))
      && (forall s :: s in sessions ==> sessions[s] in states && states[sessions[s]].sessionKey == s)
    }

    /** The page of a list that starts at `from`. */
    static ghost predicate PageAt(nodes: seq<Item>, pageSize: int, from: nat, page: Page) {
      && 0 < pageSize && from <= |nodes| && page.offset == from && page.total == |nodes|
      && page.nextOffset == (if from + pageSize < |nodes| then from + pageSize else |nodes|)
      && page.nodes == nodes[from..page.nextOffset]
      && (page.complete <==> page.nextOffset == |nodes|) && (page.continuation.None? <==> page.complete)
    }

    /** After a page the session stands at its end with the page's token; after the last page it has no inventory. */
    ghost predicate StandsAfter(s: SessionKey, page: Page)
      reads this, repr
    {
      if page.complete then View(s).None?
      else View(s).Some? && View(s).value.1 == page.nextOffset && View(s).value.2 == page.continuation
    }

    twostate lemma {:induction false} OthersSameWithout(state: InventoryState)
      requires old(Between(state))
      requires states == old(states) - {state.inventoryRef} && sessions == old(sessions) - {state.sessionKey}
      requires repr == old(repr) && forall o :: o in repr ==> unchanged(o)
      ensures forall other :: other != state.sessionKey ==> View(other) == old(View(other))
    {
      forall other | other != state.sessionKey ensures View(other) == old(View(other)) {
        if other in sessions && sessions[other] in old(states) { assert sessions[other] != state.inventoryRef; }
      }
    }

    /** Drops a state whose token is spent already. */
    method DropSpent(state: InventoryState)
      requires Between(state)
      modifies this`states, this`sessions
      ensures Valid() && View(state.sessionKey).None? && state.sessionKey !in sessions
      ensures forall other :: other != state.sessionKey ==> View(other) == old(View(other))
    {
      states := states - {state.inventoryRef};
      sessions := sessions - {state.sessionKey};
      forall r | r in states ensures StateHolds(r) { assert old(StateHolds(r)); }
      OthersSameWithout(state);
    }

    /** Takes the pending token of a state out of the table: it is spent. */
    method DeleteToken(state: InventoryState)
      requires Valid() && state.inventoryRef in states && states[state.inventoryRef] == state
      modifies this`tokens
      ensures Between(state) && OnlySpends() && state.tokenRef.Some? && Spent(state.tokenRef.value)
    {
      assert StateHolds(state.inventoryRef);
      tokens := tokens - {state.tokenRef.value};
      forall q | q in states && q != state.inventoryRef ensures StateHolds(q) { assert old(StateHolds(q)); }
    }

    method Drop(state: InventoryState)
      requires Valid() && state.inventoryRef in states && states[state.inventoryRef] == state
      modifies this`states, this`tokens, this`sessions
      ensures Valid() && OnlySpends() && state.sessionKey !in sessions
      ensures forall other :: other != state.sessionKey ==> View(other) == old(View(other))
    {
      DeleteToken(state);
      DropSpent(state);
    }

    /** Forgets a session's inventory, its token included. */
    method InvalidateSession(s: SessionKey)
      requires Valid()
      modifies this`states, this`tokens, this`sessions
      ensures Valid() && OnlySpends() && s !in sessions && nextId == old(nextId)
      ensures forall other :: other != s ==> View(other) == old(View(other))
    {
      if s in sessions {
        assert StateHolds(sessions[s]);
        Drop(states[sessions[s]]);
      }
    }

    /** Changing one state and the token table leaves the views of other sessions alone. */
    twostate lemma {:induction false} OthersSame(state: InventoryState)
      requires state.inventoryRef in states && states[state.inventoryRef] == state
      requires sessions == old(sessions) && states == old(states) && repr == old(repr) && state in repr
      requires forall r :: r in states && r != state.inventoryRef ==> states[r] != state
      requires state.sessionKey in sessions && sessions[state.sessionKey] == state.inventoryRef
      requires forall s :: s in sessions ==> sessions[s] in states && states[sessions[s]].sessionKey == s
      requires forall o :: o in repr && o != state ==> unchanged(o)
      ensures forall other :: other != state.sessionKey ==> View(other) == old(View(other))
    {}

    /** A new token for a state with more to come. */
    method IssueToken(state: InventoryState, nextOffset: nat) returns (token: Token)
      requires Between(state) && 0 < nextOffset < |state.nodes|
      modifies this`tokens, this`nextId, state
      ensures Valid() && OnlySpends()
      ensures View(state.sessionKey) == Some((state, nextOffset, Some(token)))
      ensures forall other :: other != state.sessionKey ==> View(other) == old(View(other))
    {
      token := GiveToken(state, nextOffset);
      OthersSame(state);
    }

    method GiveToken(state: InventoryState, nextOffset: nat) returns (token: Token)
      requires Between(state) && 0 < nextOffset < |state.nodes|
      modifies this`tokens, this`nextId, state
      ensures Valid() && OnlySpends()
      ensures state.tokenRef == Some(token) && state.offset == nextOffset
      ensures state.inventoryRef in states && states[state.inventoryRef] == state && state in repr
      ensures state.sessionKey in sessions && sessions[state.sessionKey] == state.inventoryRef
      ensures forall r :: r in states && r != state.inventoryRef ==> states[r] != state
    {
      token := nextId;
      nextId := nextId + 1;
      state.tokenRef := Some(token);
      tokens := tokens[token := state.inventoryRef];
      state.offset := nextOffset;
      forall r | r in states && r != state.inventoryRef ensures StateHolds(r) && states[r] != state {
        assert old(StateHolds(r));
      }
      assert StateHolds(state.inventoryRef);
      forall t | t in tokens ensures t < nextId && tokens[t] in states && states[tokens[t]] in repr
        ensures states[tokens[t]].tokenRef == Some(t)
      {
        if t != token { assert t in old(tokens) && states[tokens[t]] != state; }
      }
    }

    /** Cuts the next page: with more to come the state waits for a new token, with the last page it is dropped. */
    method CutPage(state: InventoryState) returns (page: Page)
      requires Between(state)
      modifies this`states, this`tokens, this`sessions, this`nextId, state
      ensures Valid() && OnlySpends()
      ensures PageAt(state.nodes, state.pageSize, old(state.offset), page)
      ensures StandsAfter(state.sessionKey, page)
      ensures !page.complete ==> View(state.sessionKey).value.0 == state
      ensures forall other :: other != state.sessionKey ==> View(other) == old(View(other))
    {
      var offset := state.offset;
      var end := offset + state.pageSize;
      var nextOffset := if end < |state.nodes| then end else |state.nodes|;
      var nodes := state.nodes[offset..nextOffset];
      if nextOffset == |state.nodes| {
        DropSpent(state);
        return Page(nodes, offset, nextOffset, |state.nodes|, true, None);
      }
      var token := IssueToken(state, nextOffset);
      page := Page(nodes, offset, nextOffset, |state.nodes|, false, Some(token));
    }

    twostate lemma {:induction false} OthersSameAfter(new state: InventoryState)
      requires old(Valid()) && state.sessionKey !in old(sessions) && state.inventoryRef !in old(states)
      requires states == old(states)[state.inventoryRef := state] && repr == old(repr) + {state}
      requires sessions == old(sessions)[state.sessionKey := state.inventoryRef]
      requires forall o :: o in old(repr) ==> unchanged(o)
      ensures forall other :: other != state.sessionKey ==> View(other) == old(View(other))
    {
      forall other | other != state.sessionKey ensures View(other) == old(View(other)) {
        if other in old(sessions) { assert old(StateHolds(sessions[other])); }
      }
    }

    /** Registers a new state for a session that has none. */
    method Register(s: SessionKey, epoch: Epoch, nodes: seq<Item>, pageSize: nat, expiresAt: int)
      returns (state: InventoryState)
      requires Valid() && 0 < pageSize && s !in sessions
      modifies this`states, this`sessions, this`nextId, this`repr
      ensures Between(state) && OnlySpends() && fresh(state) && repr == old(repr) + {state}
      ensures state.sessionKey == s && state.epoch == epoch && state.nodes == nodes && state.pageSize == pageSize
      ensures state.expiresAt == expiresAt && state.offset == 0
      ensures forall other :: other != s ==> View(other) == old(View(other))
    {
      var r := nextId;
      nextId := nextId + 1;
      state := new InventoryState(r, s, epoch, nodes, pageSize, expiresAt);
      states := states[r := state];
      sessions := sessions[s := r];
      repr := repr + {state};
      forall q | q in states && q != r ensures StateHolds(q) { assert old(StateHolds(q)); }
      OthersSameAfter(state);
    }

    /** Opens an inventory for a session without one and serves its first page. */
    method OpenNew(s: SessionKey, epoch: Epoch, nodes: seq<Item>, pageSize: nat, expiresAt: int) returns (page: Page)
      requires Valid() && 0 < pageSize && s !in sessions
      modifies this`states, this`tokens, this`sessions, this`nextId, this`repr
      ensures Valid() && OnlySpends() && fresh(repr - old(repr))
      ensures forall other :: other != s ==> View(other) == old(View(other))
      ensures PageAt(nodes, pageSize, 0, page) && StandsAfter(s, page)
      ensures !page.complete ==> Holds(View(s).value.0, s, epoch, nodes, pageSize, expiresAt)
    {
      var state := Register(s, epoch, nodes, pageSize, expiresAt);
      page := CutPage(state);
    }

    predicate SizeFits(pageSize: int) { 1 <= pageSize <= maxPageItems }

    /** Opens an inventory for a session, replacing the one it had, and serves its first page; a refusal changes
        nothing. */
    method Open(s: SessionKey, epoch: Epoch, nodes: seq<Item>, pageSize: int, now: int) returns (a: Answer)
      requires Valid()
      modifies this`states, this`tokens, this`sessions, this`nextId, this`repr
      ensures Valid() && OnlySpends() && fresh(repr - old(repr))
      ensures forall other :: other != s ==> View(other) == old(View(other))
      ensures !SizeFits(pageSize) ==> a.PageSizeInvalid? && View(s) == old(View(s))
      ensures SizeFits(pageSize) && |nodes| > maxItems ==> a.TooLarge? && View(s) == old(View(s))
      ensures SizeFits(pageSize) && |nodes| <= maxItems ==>
        a.Served? && PageAt(nodes, pageSize, 0, a.page) && StandsAfter(s, a.page)
      ensures a.Served? && !a.page.complete ==> Holds(View(s).value.0, s, epoch, nodes, pageSize, now + ttl)
    {
      if !SizeFits(pageSize) { return PageSizeInvalid; }
      if |nodes| > maxItems { return TooLarge; }
      InvalidateSession(s);
      var page := OpenNew(s, epoch, nodes, pageSize, now + ttl);
      a := Served(page);
    }

    static predicate Holds(state: InventoryState, s: SessionKey, epoch: Epoch, nodes: seq<Item>, pageSize: int,
                           expiresAt: int) {
      && state.sessionKey == s && state.epoch == epoch && state.nodes == nodes && state.pageSize == pageSize
      && state.expiresAt == expiresAt
    }

    /** The token is the pending one of this session. */
    ghost predicate Accepts(s: SessionKey, token: Token)
      reads this, repr
    {
      View(s).Some? && View(s).value.2 == Some(token)
    }

    /** A spent token is accepted from no session. */
    lemma {:induction false} SpentIsNeverAccepted(s: SessionKey, token: Token)
      requires Valid() && Spent(token)
      ensures !Accepts(s, token)
    {
      if s in sessions { assert StateHolds(sessions[s]); }
    }

    /** Spends the pending token of a state that goes on. */
    method SpendToken(state: InventoryState)
      requires Valid() && state.inventoryRef in states && states[state.inventoryRef] == state
      modifies this`tokens, state
      ensures Between(state) && OnlySpends() && state.offset == old(state.offset)
      ensures old(state.tokenRef.Some?) && Spent(old(state.tokenRef.value))
      ensures forall other :: other != state.sessionKey ==> View(other) == old(View(other))
    {
      DeleteToken(state);
      state.tokenRef := None;
      assert forall q :: q in states && q != state.inventoryRef ==> old(StateHolds(q)) && states[q] != state;
      OthersSame(state);
    }

    /** Serves the next page for a pending token of this session, and spends the token whatever happens; any other token
        is refused and changes nothing. */
    method Continue(s: SessionKey, token: Token, epoch: Epoch, now: int) returns (a: Answer)
      requires Valid()
      modifies this`states, this`tokens, this`sessions, this`nextId, repr
      ensures Valid() && OnlySpends()
      ensures forall other :: other != s ==> View(other) == old(View(other))
      ensures !old(Accepts(s, token)) ==> a.ContinuationInvalid? && View(s) == old(View(s))
      ensures old(Accepts(s, token)) ==> Spent(token) && Answers(s, old(View(s)).value, epoch, now, a)
    {
      assert s in sessions ==> StateHolds(sessions[s]);
      if token !in tokens || states[tokens[token]].sessionKey != s {
        return ContinuationInvalid;
      }
      var state := states[tokens[token]];
      assert StateHolds(tokens[token]) && Accepts(s, token);
      SpendToken(state);
      if now > state.expiresAt {
        DropSpent(state);
        return ContinuationExpired;
      }
      if epoch != state.epoch {
        DropSpent(state);
        return ContinuationStale;
      }
      var page := CutPage(state);
      a := Served(page);
    }

    /** The answer to a pending token of a session that stood at `view`. */
    ghost predicate Answers(s: SessionKey, view: (InventoryState, nat, Option<Token>), epoch: Epoch, now: int,
                            a: Answer)
      reads this, repr
    {
      if now > view.0.expiresAt then a.ContinuationExpired? && View(s).None?
      else if epoch != view.0.epoch then a.ContinuationStale? && View(s).None?
      else
        && a.Served? && PageAt(view.0.nodes, view.0.pageSize, view.1, a.page) && StandsAfter(s, a.page)
        && (!a.page.complete ==> View(s).value.0 == view.0)
    }

    /** Any operations of other sessions, one after the other. */
    method OtherSessions(s: SessionKey)
      requires Valid()
      modifies this`states, this`tokens, this`sessions, this`nextId, this`repr, repr
      ensures Valid() && OnlySpends() && View(s) == old(View(s)) && fresh(repr - old(repr))
    {
      var steps: int := *;
      for i := 0 to if steps > 0 then steps else 0
        invariant Valid() && OnlySpends() && View(s) == old(View(s)) && fresh(repr - old(repr))
      {
        var other: SessionKey := *;
        if other != s {
          var kind: int := *;
          var token: Token := *;
          var epoch: Epoch := *;
          var now: int := *;
          if kind == 0 {
            InvalidateSession(other);
          } else if kind == 1 {
            var nodes: seq<Item> := *;
            var size: int := *;
            var a := Open(other, epoch, nodes, size, now);
          } else {
            var a := Continue(other, token, epoch, now);
          }
        }
      }
    }

    /** The session has been served `page` of this list and can go on. */
    ghost predicate Ready(s: SessionKey, epoch: Epoch, nodes: seq<Item>, pageSize: nat, expiresAt: int, page: Page)
      reads this, repr
    {
      && Valid() && StandsAfter(s, page)
      && (!page.complete ==> Holds(View(s).value.0, s, epoch, nodes, pageSize, expiresAt))
    }

    /** The next page for a session, after whatever other sessions do. */
    method FollowOne(s: SessionKey, epoch: Epoch, ghost nodes: seq<Item>, ghost pageSize: nat, ghost expiresAt: int,
                     now: int, page: Page) returns (next: Page)
      requires Ready(s, epoch, nodes, pageSize, expiresAt, page) && !page.complete && page.continuation.Some?
      requires now <= expiresAt
      modifies this`states, this`tokens, this`sessions, this`nextId, this`repr, repr
      ensures Ready(s, epoch, nodes, pageSize, expiresAt, next) && PageAt(nodes, pageSize, page.nextOffset, next)
      ensures fresh(repr - old(repr))
    {
      OtherSessions(s);
      var a := Continue(s, page.continuation.value, epoch, now);
      next := a.page;
    }

    /** A client that opens an inventory and follows every continuation, other sessions at work in between: while
        nothing expires it is served exactly the pages of the list, at contiguous offsets. */
    method FollowAll(s: SessionKey, epoch: Epoch, nodes: seq<Item>, pageSize: nat, now: int)
      returns (pages: seq<Page>)
      requires Valid() && SizeFits(pageSize) && |nodes| <= maxItems
      modifies this`states, this`tokens, this`sessions, this`nextId, this`repr, repr
      ensures Valid() && View(s).None?
      ensures NodesOf(pages) == Pages(nodes, pageSize) && Concat(NodesOf(pages)) == nodes
      ensures Contiguous(|nodes|, pages) && pages[|pages| - 1].complete
    {
      var a := Open(s, epoch, nodes, pageSize, now);
      var page := a.page;
      pages := [page];
      FirstPage(nodes, pageSize, page);
      ghost var expiresAt := now + ttl;
      while !page.complete
        invariant Ready(s, epoch, nodes, pageSize, expiresAt, page) && fresh(repr - old(repr))
        invariant Progress(nodes, pageSize, pages, page)
        decreases |nodes| - page.offset
      {
        var next := FollowOne(s, epoch, nodes, pageSize, expiresAt, now, page);
        NextPage(nodes, pageSize, pages, page, next);
        pages, page := pages + [next], next;
      }
      LastPage(nodes, pageSize, pages, page);
      PagesConcat(nodes, pageSize);
    }
  }

  function NodesOf(pages: seq<Page>): seq<seq<Item>> {
    seq(|pages|, i requires 0 <= i < |pages| => pages[i].nodes)
  }

  /** Each page starts where the one before ended, the first at the start, and only the last can be complete. */
  ghost predicate Contiguous(total: nat, pages: seq<Page>) {
    && pages != [] && pages[0].offset == 0
    && (forall i :: 0 <= i < |pages| ==> pages[i].total == total)
    && forall i :: 0 <= i < |pages| - 1 ==> !pages[i].complete && pages[i + 1].offset == pages[i].nextOffset
  }

  /** The pages served so far, the last of them `page`, and the pages of what lies behind it make up the list's pages.
      */
  ghost predicate Progress(nodes: seq<Item>, pageSize: nat, pages: seq<Page>, page: Page)
    requires 0 < pageSize
  {
    && Contiguous(|nodes|, pages) && pages[|pages| - 1] == page
    && SemanticInventory.PageAt(nodes, pageSize, page.offset, page)
    && Pages(nodes, pageSize) == NodesOf(pages[..|pages| - 1]) + Pages(nodes[page.offset..], pageSize)
  }

  lemma {:induction false} FirstPage(nodes: seq<Item>, pageSize: nat, page: Page)
    requires 0 < pageSize && SemanticInventory.PageAt(nodes, pageSize, 0, page)
    ensures Progress(nodes, pageSize, [page], page)
  {
    assert nodes[0..] == nodes && NodesOf([page][..0]) == [];
  }

  lemma {:induction false} NextPage(nodes: seq<Item>, pageSize: nat, pages: seq<Page>, page: Page, next: Page)
    requires 0 < pageSize && Progress(nodes, pageSize, pages, page) && !page.complete
    requires SemanticInventory.PageAt(nodes, pageSize, page.nextOffset, next)
    ensures Progress(nodes, pageSize, pages + [next], next)
  {
    var rest := nodes[page.offset..];
    assert rest[..pageSize] == page.nodes && rest[pageSize..] == nodes[page.nextOffset..];
    assert NodesOf(pages) == NodesOf(pages[..|pages| - 1]) + [page.nodes];
    assert (pages + [next])[..|pages|] == pages;
  }

  lemma {:induction false} LastPage(nodes: seq<Item>, pageSize: nat, pages: seq<Page>, page: Page)
    requires 0 < pageSize && Progress(nodes, pageSize, pages, page) && page.complete
    ensures NodesOf(pages) == Pages(nodes, pageSize)
  {
    assert nodes[page.offset..] == page.nodes;
    assert NodesOf(pages) == NodesOf(pages[..|pages| - 1]) + [page.nodes];
  }
}
