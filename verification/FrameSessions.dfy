/** The sessions a browser transport holds: one root per attached target and, below it, a session per child frame, each
    opened by an event of its parent's session. */
module FrameSessions {
  import opened Options

  type SessionId = nat
  type TargetId = nat

  /** One child frame's session: the frame, the parent frame, the session whose event announced it, and its root. */
  datatype Child = Child(targetId: TargetId, parentId: TargetId, parentSessionId: SessionId, rootId: SessionId)

  /** What listeners of a root are told. */
  datatype Emitted =
    | Nothing
    | FrameAttached(root: SessionId, frame: TargetId)
    | FrameDetached(root: SessionId, frame: TargetId)
    | RootDetached(root: SessionId)
    | Forwarded(root: SessionId, from: Option<TargetId>)

  type Children = map<SessionId, Child>

  /** Every child was announced after the session that announced it. */
  ghost predicate Ranked(children: Children, rank: map<SessionId, nat>) {
    forall c :: c in children ==>
      c in rank && children[c].parentSessionId in rank && rank[children[c].parentSessionId] < rank[c]
  }

  /** `c` stands below `p`: its parent session is `p`, or one that stands below `p`. */
  ghost predicate Descends(children: Children, rank: map<SessionId, nat>, c: SessionId, p: SessionId)
    requires Ranked(children, rank)
    decreases if c in rank then rank[c] else 0
  {
    c in children && (children[c].parentSessionId == p || Descends(children, rank, children[c].parentSessionId, p))
  }

  /** The child of `p` that `c` stands at or below. */
  ghost function Through(children: Children, rank: map<SessionId, nat>, c: SessionId, p: SessionId): (k: SessionId)
    requires Ranked(children, rank) && Descends(children, rank, c, p)
    ensures k in children && children[k].parentSessionId == p && (k == c || Descends(children, rank, c, k))
    decreases rank[c]
  {
    if children[c].parentSessionId == p then c else Through(children, rank, children[c].parentSessionId, p)
  }

  lemma {:induction false} RankFalls(children: Children, rank: map<SessionId, nat>, c: SessionId, p: SessionId)
    requires Ranked(children, rank) && Descends(children, rank, c, p)
    ensures p in rank && rank[p] < rank[c]
    decreases rank[c]
  {
    if children[c].parentSessionId != p { RankFalls(children, rank, children[c].parentSessionId, p); }
  }

  /** At or below a child `k` of `p` is below `p` through `k`. */
  lemma {:induction false} BelowChild(children: Children, rank: map<SessionId, nat>, c: SessionId, k: SessionId,
                                      p: SessionId)
    requires Ranked(children, rank) && k in children && children[k].parentSessionId == p
    ensures (c == k || Descends(children, rank, c, k)) <==>
      Descends(children, rank, c, p) && Through(children, rank, c, p) == k
    decreases if c in rank then rank[c] else 0
  {
    if c in children {
      var up := children[c].parentSessionId;
      if up != p {
        BelowChild(children, rank, up, k, p);
      } else if Descends(children, rank, c, k) {
        RankFalls(children, rank, c, k);
        if up != k { RankFalls(children, rank, up, k); }
      }
    }
  }

  /** Removing sessions elsewhere does not change who stands below `k`. */
  lemma {:induction false} DescendsInPart(children: Children, part: Children, rank: map<SessionId, nat>, c: SessionId,
                                          k: SessionId)
    requires Ranked(children, rank) && Ranked(part, rank)
    requires forall d :: d in part ==> d in children && part[d] == children[d]
    requires forall d :: d in children && Descends(children, rank, d, k) ==> d in part
    ensures Descends(part, rank, c, k) <==> Descends(children, rank, c, k)
    decreases if c in rank then rank[c] else 0
  {
    if c in part {
      DescendsInPart(children, part, rank, part[c].parentSessionId, k);
    }
  }

  /** What is left when everything below `p` through the children in `done` is gone. */
  ghost function Without(children: Children, rank: map<SessionId, nat>, p: SessionId, done: set<SessionId>): Children
    requires Ranked(children, rank)
  {
    map c | c in children && !(Descends(children, rank, c, p) && Through(children, rank, c, p) in done) :: children[c]
  }

  ghost function WithoutBelow(children: Children, rank: map<SessionId, nat>, p: SessionId): Children
    requires Ranked(children, rank)
  {
    map c | c in children && !Descends(children, rank, c, p) :: children[c]
  }

  /** One turn of the removal loop: everything below the child `k`, then `k` itself. */
  lemma {:induction false} OneChildGone(children: Children, part: Children, rank: map<SessionId, nat>, p: SessionId,
                                        done: set<SessionId>, k: SessionId)
    requires Ranked(children, rank) && k in children && children[k].parentSessionId == p && k !in done
    requires part == Without(children, rank, p, done)
    ensures Ranked(part, rank)
    ensures WithoutBelow(part, rank, k) - {k} == Without(children, rank, p, done + {k})
  {
    forall d | d in children
      ensures (d == k || Descends(children, rank, d, k)) <==>
        Descends(children, rank, d, p) && Through(children, rank, d, p) == k
    {
      BelowChild(children, rank, d, k, p);
    }
    forall c | c in part ensures Descends(part, rank, c, k) <==> Descends(children, rank, c, k) {
      DescendsInPart(children, part, rank, c, k);
    }
  }

  /** Once every child of `p` is done, nothing below `p` is left. */
  lemma {:induction false} AllGone(children: Children, rank: map<SessionId, nat>, p: SessionId, done: set<SessionId>)
    requires Ranked(children, rank)
    requires forall c :: c in children && children[c].parentSessionId == p ==> c in done
    ensures Without(children, rank, p, done) == WithoutBelow(children, rank, p)
  {
    assert forall c :: c in children && Descends(children, rank, c, p) ==> Through(children, rank, c, p) in done;
  }

  class NodeCdpTransport {
    var sessions: map<SessionId, TargetId>
    var children: Children
    var pendingAttaches: nat
    var subscribed: bool
    var closed: bool
    /** When each session id was first seen. */
    ghost var rank: map<SessionId, nat>
    /** The ids attaches were answered with; none of them is ever a child's. */
    ghost var roots: set<SessionId>
    ghost var clock: nat

    /** Root and child ids do not mix, the link of every child leads to a live session of the same root, and the root is
        live. */
    ghost predicate ChildHolds(c: SessionId)
      reads this
      requires c in children
    {
      var child := children[c];
      && c !in sessions && child.rootId in sessions
      && (if child.parentSessionId in children then
            && children[child.parentSessionId].rootId == child.rootId
            && children[child.parentSessionId].targetId == child.parentId
          else child.parentSessionId == child.rootId && sessions[child.rootId] == child.parentId)
    }

    ghost predicate Forest()
      reads this
    {
      && Ranked(children, rank) && (forall id :: id in rank ==> rank[id] < clock)
      && sessions.Keys <= roots <= rank.Keys && roots !! children.Keys
      && forall c :: c in children ==> ChildHolds(c)
    }

    /** The transport listens for events whenever a session could need them. */
    predicate Listening()
      reads this
    {
      closed || (sessions.Keys != {} || pendingAttaches > 0 ==> subscribed)
    }

    ghost predicate Valid()
      reads this
    {
      Forest() && Listening()
    }

    constructor ()
      ensures Valid() && sessions == map[] && children == map[]
    {
      sessions, children := map[], map[];
      pendingAttaches, subscribed, closed := 0, false, false;
      rank, clock, roots := map[], 0, {};
    }

    /** Under the invariant every child stands below its root, and below no other. */
    lemma {:induction false} StandsBelowItsRoot(c: SessionId, s: SessionId)
      requires Forest() && c in children && s in sessions
      ensures Descends(children, rank, c, s) <==> children[c].rootId == s
      decreases rank[c]
    {
      assert ChildHolds(c);
      var up := children[c].parentSessionId;
      if up in children {
        assert ChildHolds(up);
        StandsBelowItsRoot(up, s);
      }
    }

    lemma {:induction false} NothingBelowUnknown(c: SessionId, s: SessionId)
      requires Forest() && s !in sessions && s !in children
      ensures !Descends(children, rank, c, s)
      decreases if c in rank then rank[c] else 0
    {
      if c in children {
        assert ChildHolds(c);
        NothingBelowUnknown(children[c].parentSessionId, s);
      }
    }

    /** Removes everything below a session, recursing into each child before deleting it. */
    method RemoveChildren(p: SessionId)
      requires Ranked(children, rank) && forall id :: id in rank ==> rank[id] < clock
      modifies this`children
      ensures children == WithoutBelow(old(children), rank, p)
      ensures Ranked(children, rank)
      decreases clock - (if p in rank then rank[p] else 0)
    {
      var before := children;
      var todo := children.Keys;
      ghost var done: set<SessionId> := {};
      assert children == Without(before, rank, p, done);
      while todo != {}
        invariant todo <= before.Keys && done !! todo
        invariant forall c :: c in before && before[c].parentSessionId == p ==> c in todo || c in done
        invariant children == Without(before, rank, p, done) && Ranked(children, rank)
        decreases |todo|
      {
        var c :| c in todo;
        todo := todo - {c};
        if before[c].parentSessionId == p {
          OneChildGone(before, children, rank, p, done, c);
          RemoveChildren(c);
          children := children - {c};
          done := done + {c};
        }
      }
      AllGone(before, rank, p, done);
    }

    method ReleaseSubscription()
      modifies this`subscribed
      ensures Listening() || !old(Listening())
    {
      if sessions.Keys != {} || pendingAttaches > 0 { return; }
      subscribed := false;
    }

    /** Drops a root: afterwards exactly the children of the other roots are left. */
    method RemoveSession(s: SessionId)
      requires Valid() && s !in children
      modifies this`sessions, this`children, this`subscribed
      ensures Valid() && sessions == old(sessions) - {s}
      ensures children == map c | c in old(children) && old(children)[c].rootId != s :: old(children)[c]
    {
      DropRoot(s);
      ReleaseSubscription();
    }

    lemma {:induction false} DescendsFromRoot(s: SessionId)
      requires Valid() && s !in children
      ensures forall c :: c in children ==> (Descends(children, rank, c, s) <==> children[c].rootId == s)
    {
      forall c | c in children ensures Descends(children, rank, c, s) <==> children[c].rootId == s {
        assert ChildHolds(c);
        if s in sessions {
          StandsBelowItsRoot(c, s);
        } else {
          NothingBelowUnknown(c, s);
        }
      }
    }

    /** The root leaves the map first, then everything below it goes. */
    method DropRoot(s: SessionId)
      requires Valid() && s !in children
      modifies this`sessions, this`children
      ensures Valid() && sessions == old(sessions) - {s}
      ensures children == map c | c in old(children) && old(children)[c].rootId != s :: old(children)[c]
    {
      ghost var before := children;
      DescendsFromRoot(s);
      sessions := sessions - {s};
      RemoveChildren(s);
      forall c | c in children ensures ChildHolds(c) {
        var up := before[c].parentSessionId;
        assert !Descends(before, rank, c, s);
        assert up != s && !Descends(before, rank, up, s);
      }
    }

    // ---- The attach of a root, split at its awaits; events arrive in between.

    method BeginAttach()
      requires Valid()
      modifies this`subscribed, this`pendingAttaches
      ensures Valid() && pendingAttaches == old(pendingAttaches) + 1
    {
      subscribed := true;
      pendingAttaches := pendingAttaches + 1;
    }

    /** The browser answered with a new session id. */
    method AttachAnswered(s: SessionId, target: TargetId)
      requires Valid() && s !in rank && pendingAttaches > 0
      modifies this`sessions, this`rank, this`clock, this`roots
      ensures Valid() && sessions == old(sessions)[s := target] && roots == old(roots) + {s}
    {
      sessions, roots := sessions[s := target], roots + {s};
      rank, clock := rank[s := clock], clock + 1;
      assert forall c :: c in children ==> old(ChildHolds(c));
    }

    /** The rest of the attach succeeded if the root is still there; otherwise, or when it failed, the root goes. */
    method EndAttach(s: Option<SessionId>, failed: bool) returns (attached: bool)
      requires Valid() && pendingAttaches > 0 && (s.Some? ==> s.value in roots)
      modifies this`sessions, this`children, this`subscribed, this`pendingAttaches
      ensures Valid() && pendingAttaches == old(pendingAttaches) - 1
      ensures attached <==> s.Some? && !failed && s.value in old(sessions)
      ensures attached ==> sessions == old(sessions) && children == old(children)
      ensures !attached && s.Some? ==> sessions == old(sessions) - {s.value}
      ensures !attached && s.Some? ==>
        forall c :: c in children <==> c in old(children) && old(children)[c].rootId != s.value
    {
      attached := s.Some? && !failed && s.value in sessions;
      if !attached && s.Some? {
        assert s.value !in sessions ==> forall c :: c in children ==> ChildHolds(c);
        RemoveSession(s.value);
      }
      pendingAttaches := pendingAttaches - 1;
      assert forall c :: c in children ==> ChildHolds(c);
      ReleaseSubscription();
    }

    /** `detach`: nothing for a root that is already gone. */
    method Detach(s: SessionId)
      requires Valid()
      modifies this`sessions, this`children, this`subscribed
      ensures Valid() && sessions == old(sessions) - {s}
      ensures forall c :: c in children <==> c in old(children) && old(children)[c].rootId != s
    {
      if s !in sessions {
        assert forall c :: c in children ==> ChildHolds(c);
        return;
      }
      RemoveSession(s);
    }

    method Close()
      requires Valid()
      modifies this`sessions, this`children, this`subscribed, this`closed
      ensures Valid() && sessions == map[] && children == map[]
    {
      sessions, children, subscribed, closed := map[], map[], false, true;
    }

    // ---- Events.

    /** A frame's session appeared below `parentSession`: kept only below a known session, under that session's root. */
    method AttachedToTarget(parentSession: SessionId, c: SessionId, target: TargetId, iframe: bool) returns (e: Emitted)
      requires Valid() && c !in rank
      modifies this`children, this`rank, this`clock
      ensures Valid()
      ensures if iframe && (parentSession in old(children) || parentSession in sessions) then
          && c in children && children == old(children)[c := children[c]]
          && children[c].targetId == target && children[c].parentSessionId == parentSession
          && e == FrameAttached(children[c].rootId, target) && children[c].rootId in sessions
        else children == old(children) && e == Nothing
    {
      if !iframe || (parentSession !in children && parentSession !in sessions) { return Nothing; }
      var rootId, parentId;
      if parentSession in children {
        assert ChildHolds(parentSession);
        rootId, parentId := children[parentSession].rootId, children[parentSession].targetId;
      } else {
        rootId, parentId := parentSession, sessions[parentSession];
      }
      children := children[c := Child(target, parentId, parentSession, rootId)];
      rank, clock := rank[c := clock], clock + 1;
      forall d | d in children ensures ChildHolds(d) {
        if d != c { assert old(ChildHolds(d)); }
      }
      e := FrameAttached(rootId, target);
    }

    /** A session ended: a child takes everything below it along, a root all its children. */
    method DetachedFromTarget(s: SessionId) returns (e: Emitted)
      requires Valid()
      modifies this`sessions, this`children, this`subscribed
      ensures Valid()
      ensures s in old(children) ==>
        && sessions == old(sessions) && children == WithoutBelow(old(children), rank, s) - {s}
        && e == FrameDetached(old(children)[s].rootId, old(children)[s].targetId)
      ensures s in old(sessions) ==>
        && sessions == old(sessions) - {s} && e == RootDetached(s)
        && forall c :: c in children <==> c in old(children) && old(children)[c].rootId != s
      ensures s !in old(children) && s !in old(sessions) ==>
        sessions == old(sessions) && children == old(children) && e == Nothing
    {
      if s in children {
        ghost var before := children;
        var child := children[s];
        assert ChildHolds(s);
        RemoveChildren(s);
        children := children - {s};
        forall c | c in children ensures ChildHolds(c) {
          assert old(ChildHolds(c));
          var up := before[c].parentSessionId;
          assert up != s;
          assert !Descends(before, rank, c, s);
          assert up != s && !Descends(before, rank, up, s);
        }
        return FrameDetached(child.rootId, child.targetId);
      }
      if s in sessions {
        DropRoot(s);
        e := RootDetached(s);
        ghost var left := children;
        assert forall c :: c in children ==> children[c].rootId != s;
        RemoveSession(s);
        return;
      }
      return Nothing;
    }

    /** Any other event is told to the live root it belongs to. */
    method Forward(s: SessionId) returns (e: Emitted)
      requires Valid()
      ensures e == if s in children then Forwarded(children[s].rootId, Some(children[s].targetId))
                   else if s in sessions then Forwarded(s, None) else Nothing
      ensures e.Forwarded? ==> e.root in sessions
    {
      if s in children {
        assert ChildHolds(s);
        return Forwarded(children[s].rootId, Some(children[s].targetId));
      }
      return if s in sessions then Forwarded(s, None) else Nothing;
    }
  }
}
