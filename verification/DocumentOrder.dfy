/** The order in which a snapshot lists an accessibility tree: depth first along child ids, by an explicit stack over
    nodes the page sent and nobody vouches for. */
module DocumentOrder {
  type NodeId = string

  /** One accessibility node. An empty parent id stands for none; child ids may name nodes that were not sent, nodes
      already listed, or the node itself. */
  datatype Node = Node(nodeId: NodeId, parentId: NodeId, childIds: seq<NodeId>)

  /** Which node an id names: the last one sent under it. */
  function ById(nodes: seq<Node>): (m: map<NodeId, Node>)
    ensures forall n :: n in nodes ==> n.nodeId in m
    ensures forall id :: id in m ==> m[id].nodeId == id && m[id] in nodes
  {
    if nodes == [] then map[]
    else ById(nodes[..|nodes| - 1])[nodes[|nodes| - 1].nodeId := nodes[|nodes| - 1]]
  }

  /** The children of a node that were sent, in order. */
  function Children(byId: map<NodeId, Node>, ids: seq<NodeId>): (kids: seq<Node>)
    ensures (forall id :: id in byId ==> byId[id].nodeId == id) ==> Known(byId, kids)
  {
    if ids == [] then []
    else (if ids[0] in byId then [byId[ids[0]]] else []) + Children(byId, ids[1..])
  }

  predicate IsRoot(byId: map<NodeId, Node>, node: Node) { node.parentId == "" || node.parentId !in byId }

  function Roots(byId: map<NodeId, Node>, nodes: seq<Node>): (roots: seq<Node>)
    ensures forall n :: n in roots ==> n in nodes && IsRoot(byId, n)
  {
    if nodes == [] then []
    else
      var last := |nodes| - 1;
      Roots(byId, nodes[..last]) + if IsRoot(byId, nodes[last]) then [nodes[last]] else []
  }

  predicate Known(byId: map<NodeId, Node>, nodes: seq<Node>) { forall n :: n in nodes ==> n.nodeId in byId }

  ghost predicate Indexed(byId: map<NodeId, Node>) { forall id :: id in byId ==> byId[id].nodeId == id }

  /** Depth-first search by recursion: visits a list of nodes in order, each with everything below it, skipping ids
      already seen. Gives the nodes visited and the ids seen afterwards. */
  ghost function Visit(byId: map<NodeId, Node>, nodes: seq<Node>, seen: set<NodeId>): (r: (seq<Node>, set<NodeId>))
    requires Indexed(byId) && Known(byId, nodes)
    ensures seen <= r.1
    decreases byId.Keys - seen, |nodes|
  {
    if nodes == [] then ([], seen)
    else if nodes[0].nodeId in seen then Visit(byId, nodes[1..], seen)
    else
      var below := Visit(byId, Children(byId, nodes[0].childIds), seen + {nodes[0].nodeId});
      var after := Visit(byId, nodes[1..], below.1);
      ([nodes[0]] + below.0 + after.0, after.1)
  }

  ghost function Order(nodes: seq<Node>): seq<Node> {
    var byId := ById(nodes);
    Visit(byId, Roots(byId, nodes) + nodes, {}).0
  }

  lemma {:induction false} VisitConcat(byId: map<NodeId, Node>, a: seq<Node>, b: seq<Node>, seen: set<NodeId>)
    requires Indexed(byId) && Known(byId, a) && Known(byId, b)
    ensures var first := Visit(byId, a, seen); var second := Visit(byId, b, first.1);
      Visit(byId, a + b, seen) == (first.0 + second.0, second.1)
    decreases byId.Keys - seen, |a|
  {
    if a == [] {
      assert a + b == b && Visit(byId, a, seen) == ([], seen);
      assert [] + Visit(byId, b, seen).0 == Visit(byId, b, seen).0;
    } else {
      assert (a + b)[0] == a[0] && (a + b)[1..] == a[1..] + b;
      if a[0].nodeId in seen {
        VisitConcat(byId, a[1..], b, seen);
      } else {
        var below := Visit(byId, Children(byId, a[0].childIds), seen + {a[0].nodeId});
        var rest := Visit(byId, a[1..], below.1);
        var second := Visit(byId, b, rest.1);
        VisitConcat(byId, a[1..], b, below.1);
        assert Visit(byId, a, seen) == ([a[0]] + below.0 + rest.0, rest.1);
        assert [a[0]] + below.0 + (rest.0 + second.0) == ([a[0]] + below.0 + rest.0) + second.0;
      }
    }
  }

  function Ids(nodes: seq<Node>): set<NodeId> { set n | n in nodes :: n.nodeId }

  predicate DistinctIds(nodes: seq<Node>) {
    forall i, j :: 0 <= i < j < |nodes| ==> nodes[i].nodeId != nodes[j].nodeId
  }

  /** A visit lists no id twice and none seen before, sees exactly what it lists, and covers what it was given. */
  lemma {:induction false} VisitListsOnce(byId: map<NodeId, Node>, nodes: seq<Node>, seen: set<NodeId>)
    requires Indexed(byId) && Known(byId, nodes)
    ensures var r := Visit(byId, nodes, seen);
      DistinctIds(r.0) && Ids(r.0) !! seen && r.1 == seen + Ids(r.0) && Ids(nodes) <= r.1
    ensures forall n :: n in Visit(byId, nodes, seen).0 ==> n in nodes || n in byId.Values
    decreases byId.Keys - seen, |nodes|
  {
    if nodes != [] {
      if nodes[0].nodeId in seen {
        VisitListsOnce(byId, nodes[1..], seen);
      } else {
        var kids := Children(byId, nodes[0].childIds);
        var below := Visit(byId, kids, seen + {nodes[0].nodeId});
        VisitListsOnce(byId, kids, seen + {nodes[0].nodeId});
        var after := Visit(byId, nodes[1..], below.1);
        VisitListsOnce(byId, nodes[1..], below.1);
        ChildrenAreIndexed(byId, nodes[0].childIds);
        ListedOnceJoins(nodes[0], below.0, after.0, seen);
      }
    }
  }

  lemma {:induction false} ChildrenAreIndexed(byId: map<NodeId, Node>, ids: seq<NodeId>)
    ensures forall n :: n in Children(byId, ids) ==> n in byId.Values
  {
    if ids != [] { ChildrenAreIndexed(byId, ids[1..]); }
  }

  lemma {:induction false} ListedOnceJoins(n: Node, below: seq<Node>, after: seq<Node>, seen: set<NodeId>)
    requires DistinctIds(below) && DistinctIds(after) && n.nodeId !in seen
    requires Ids(below) !! (seen + {n.nodeId}) && Ids(after) !! (seen + {n.nodeId} + Ids(below))
    ensures DistinctIds([n] + below + after)
    ensures Ids([n] + below + after) == {n.nodeId} + Ids(below) + Ids(after)
  {
    var all := [n] + below + after;
    forall i, j | 0 <= i < j < |all| ensures all[i].nodeId != all[j].nodeId {
      assert all[j] in below || all[j] in after;
      if 0 < i {
        assert all[i] in below || all[i] in after;
        if j <= |below| {
          assert all[i] == below[i - 1] && all[j] == below[j - 1];
        } else if i > |below| {
          assert all[i] == after[i - 1 - |below|] && all[j] == after[j - 1 - |below|];
        } else {
          assert all[i] == below[i - 1] && all[j] == after[j - 1 - |below|];
          assert all[i].nodeId in Ids(below) && all[j].nodeId in Ids(after);
        }
      } else {
        assert all[j].nodeId in Ids(below) || all[j].nodeId in Ids(after);
      }
    }
    assert Ids(all) == {n.nodeId} + Ids(below) + Ids(after) by {
      forall m | m in all ensures m == n || m in below || m in after {}
      assert n in all && (forall m :: m in below ==> m in all) && (forall m :: m in after ==> m in all);
    }
  }

  /** Whatever graph the page sent, cyclic or shared: every node listed was sent, and every id that was sent is listed
      exactly once. */
  lemma {:induction false} OrderListsEachIdOnce(nodes: seq<Node>)
    ensures forall n :: n in Order(nodes) ==> n in nodes
    ensures DistinctIds(Order(nodes)) && Ids(Order(nodes)) == Ids(nodes)
  {
    var byId := ById(nodes);
    var start := Roots(byId, nodes) + nodes;
    assert Known(byId, start);
    VisitListsOnce(byId, start, {});
    forall n | n in nodes ensures n.nodeId in Ids(Order(nodes)) {
      assert n in start && n.nodeId in Ids(start);
    }
    assert forall n :: n in Order(nodes) ==> n in nodes;
  }

  // ---- Forests.

  datatype Tree = Tree(node: Node, kids: seq<Tree>)

  function Heads(trees: seq<Tree>): seq<Node> { seq(|trees|, i requires 0 <= i < |trees| => trees[i].node) }

  function Preorder(trees: seq<Tree>): seq<Node>
    decreases trees
  {
    if trees == [] then [] else [trees[0].node] + Preorder(trees[0].kids) + Preorder(trees[1..])
  }

  /** The links of every node in the trees are the trees' own. */
  ghost predicate Shaped(byId: map<NodeId, Node>, trees: seq<Tree>)
    decreases trees
  {
    trees != [] ==>
      && trees[0].node.nodeId in byId && byId[trees[0].node.nodeId] == trees[0].node
      && Children(byId, trees[0].node.childIds) == Heads(trees[0].kids)
      && Shaped(byId, trees[0].kids) && Shaped(byId, trees[1..])
  }

  /** The nodes are some listing of a forest: no id twice, the roots among them standing in the order of the trees. */
  ghost predicate ListsForest(nodes: seq<Node>, trees: seq<Tree>) {
    && DistinctIds(Preorder(trees)) && Ids(nodes) == Ids(Preorder(trees))
    && Roots(ById(nodes), nodes) == Heads(trees)
    && Shaped(ById(nodes), trees)
  }

  lemma {:induction false} ShapedKnown(byId: map<NodeId, Node>, trees: seq<Tree>)
    requires Shaped(byId, trees)
    ensures Known(byId, Heads(trees))
    decreases trees
  {
    if trees != [] {
      ShapedKnown(byId, trees[1..]);
      forall n | n in Heads(trees) ensures n.nodeId in byId {
        var i :| 0 <= i < |trees| && trees[i].node == n;
        if i > 0 { assert Heads(trees[1..])[i - 1] == n; }
      }
    }
  }

  lemma {:induction false} DistinctParts(a: seq<Node>, b: seq<Node>)
    requires DistinctIds(a + b)
    ensures DistinctIds(a) && DistinctIds(b) && Ids(a) !! Ids(b)
  {
    assert forall i :: 0 <= i < |a| ==> (a + b)[i] == a[i];
    assert forall i :: 0 <= i < |b| ==> (a + b)[|a| + i] == b[i];
    forall i, j | 0 <= i < |a| && 0 <= j < |b| ensures a[i].nodeId != b[j].nodeId {
      assert (a + b)[i].nodeId != (a + b)[|a| + j].nodeId;
    }
  }

  lemma {:induction false} IdsOfConcat(a: seq<Node>, b: seq<Node>)
    ensures Ids(a + b) == Ids(a) + Ids(b)
  {
    assert forall n :: n in a + b <==> n in a || n in b;
  }

  lemma {:induction false} VisitForest(byId: map<NodeId, Node>, trees: seq<Tree>, seen: set<NodeId>)
    requires Indexed(byId) && Shaped(byId, trees) && Known(byId, Heads(trees))
    requires DistinctIds(Preorder(trees)) && Ids(Preorder(trees)) !! seen
    ensures Visit(byId, Heads(trees), seen) == (Preorder(trees), seen + Ids(Preorder(trees)))
    decreases trees
  {
    if trees == [] {
      assert Heads(trees) == [] && seen + Ids([]) == seen;
    } else {
      var n, below, after := trees[0].node, Preorder(trees[0].kids), Preorder(trees[1..]);
      assert Heads(trees)[0] == n && Heads(trees)[1..] == Heads(trees[1..]);
      assert Preorder(trees) == [n] + below + after && [n] + below + after == [n] + (below + after);
      DistinctParts([n] + below, after);
      DistinctParts([n], below);
      IdsOfConcat([n] + below, after);
      IdsOfConcat([n], below);
      assert Ids([n]) == {n.nodeId} by { assert n in [n]; }
      ShapedKnown(byId, trees[0].kids);
      VisitForest(byId, trees[0].kids, seen + {n.nodeId});
      var seen1 := seen + {n.nodeId} + Ids(below);
      VisitForest(byId, trees[1..], seen1);
      assert Visit(byId, Children(byId, n.childIds), seen + {n.nodeId}) == (below, seen1);
      assert Visit(byId, Heads(trees)[1..], seen1) == (after, seen1 + Ids(after));
      assert Visit(byId, Heads(trees), seen) == ([n] + below + after, seen1 + Ids(after));
      assert seen1 + Ids(after) == seen + Ids(Preorder(trees));
    }
  }

  lemma {:induction false} VisitNothingNew(byId: map<NodeId, Node>, nodes: seq<Node>, seen: set<NodeId>)
    requires Indexed(byId) && Known(byId, nodes) && Ids(nodes) <= seen
    ensures Visit(byId, nodes, seen) == ([], seen)
    decreases |nodes|
  {
    if nodes != [] {
      assert nodes[0].nodeId in Ids(nodes);
      assert forall n :: n in nodes[1..] ==> n in nodes;
      VisitNothingNew(byId, nodes[1..], seen);
    }
  }

  /** Listed in any order, the nodes of a forest come out in preorder, tree after tree. */
  lemma {:induction false} ForestComesOutInPreorder(nodes: seq<Node>, trees: seq<Tree>)
    requires ListsForest(nodes, trees)
    ensures Order(nodes) == Preorder(trees)
  {
    var byId := ById(nodes);
    VisitForest(byId, trees, {});
    VisitConcat(byId, Heads(trees), nodes, {});
    VisitNothingNew(byId, nodes, Visit(byId, Heads(trees), {}).1);
  }

  // ---- The stack algorithm.

  /** What is still to do, in order: the stack from its top down. */
  ghost function Pending(stack: seq<Node>): seq<Node> {
    seq(|stack|, i requires 0 <= i < |stack| => stack[|stack| - 1 - i])
  }

  lemma {:induction false} PendingPops(stack: seq<Node>)
    requires stack != []
    ensures Pending(stack) == [stack[|stack| - 1]] + Pending(stack[..|stack| - 1])
  {}

  /** Pushes the children last first, so that the first is popped next. */
  method PushChildren(stack: seq<Node>, kids: seq<Node>) returns (pushed: seq<Node>)
    ensures Pending(pushed) == kids + Pending(stack)
    ensures |pushed| == |stack| + |kids|
  {
    pushed := stack;
    for index := |kids| downto 0
      invariant Pending(pushed) == kids[index..] + Pending(stack)
    {
      pushed := pushed + [kids[index]];
      assert Pending(pushed) == [kids[index]] + kids[index + 1..] + Pending(stack) by {
        PendingPops(pushed);
        assert pushed[..|pushed| - 1] + [kids[index]] == pushed;
      }
      assert [kids[index]] + kids[index + 1..] == kids[index..];
    }
  }

  /** Visits one root with the explicit stack: appends to `ordered` exactly what the recursion lists. */
  method VisitRoot(byId: map<NodeId, Node>, root: Node, ordered0: seq<Node>, seen0: set<NodeId>)
    returns (ordered: seq<Node>, seen: set<NodeId>)
    requires Indexed(byId) && Known(byId, [root])
    ensures ordered == ordered0 + Visit(byId, [root], seen0).0 && seen == Visit(byId, [root], seen0).1
  {
    ordered, seen := ordered0, seen0;
    var stack := [root];
    ghost var goal := Visit(byId, [root], seen0);
    assert Pending(stack) == [root];
    while stack != []
      invariant Known(byId, Pending(stack)) && seen0 <= seen
      invariant ordered + Visit(byId, Pending(stack), seen).0 == ordered0 + goal.0
      invariant Visit(byId, Pending(stack), seen).1 == goal.1
      decreases byId.Keys - seen, |stack|
    {
      var node, rest := stack[|stack| - 1], stack[..|stack| - 1];
      PendingPops(stack);
      assert Pending(stack)[0] == node && Pending(stack)[1..] == Pending(rest);
      stack := rest;
      if node.nodeId !in seen {
        var kids := Children(byId, node.childIds);
        VisitConcat(byId, kids, Pending(rest), seen + {node.nodeId});
        ghost var was := ordered;
        seen, ordered := seen + {node.nodeId}, ordered + [node];
        stack := PushChildren(rest, kids);
        ghost var below := Visit(byId, kids, seen);
        ghost var after := Visit(byId, Pending(rest), below.1);
        assert was + ([node] + below.0 + after.0) == ordered + (below.0 + after.0);
      }
    }
    assert ordered + [] == ordered;
  }

  lemma {:induction false} VisitOneMore(byId: map<NodeId, Node>, done: seq<Node>, node: Node, seen: set<NodeId>)
    requires Indexed(byId) && Known(byId, done) && Known(byId, [node])
    ensures var first := Visit(byId, done, seen); var one := Visit(byId, [node], first.1);
      Visit(byId, done + [node], seen) == (first.0 + one.0, one.1)
  {
    VisitConcat(byId, done, [node], seen);
  }

  lemma {:induction false} RootsOneMore(byId: map<NodeId, Node>, nodes: seq<Node>, i: nat)
    requires i < |nodes|
    ensures Roots(byId, nodes[..i + 1]) == Roots(byId, nodes[..i]) + if IsRoot(byId, nodes[i]) then [nodes[i]] else []
  {
    assert nodes[..i + 1][..i] == nodes[..i];
  }

  /** The first pass: every root in turn. */
  method VisitRoots(byId: map<NodeId, Node>, nodes: seq<Node>) returns (ordered: seq<Node>, seen: set<NodeId>)
    requires Indexed(byId) && Known(byId, nodes)
    ensures (ordered, seen) == Visit(byId, Roots(byId, nodes), {})
  {
    ordered, seen := [], {};
    for i := 0 to |nodes|
      invariant (ordered, seen) == Visit(byId, Roots(byId, nodes[..i]), {})
    {
      RootsOneMore(byId, nodes, i);
      if IsRoot(byId, nodes[i]) {
        VisitOneMore(byId, Roots(byId, nodes[..i]), nodes[i], {});
        ordered, seen := VisitRoot(byId, nodes[i], ordered, seen);
      } else {
        assert Roots(byId, nodes[..i]) + [] == Roots(byId, nodes[..i]);
      }
    }
    assert nodes[..|nodes|] == nodes;
  }

  /** The second pass: whatever no root reached, at its provider's place. */
  method VisitRest(byId: map<NodeId, Node>, nodes: seq<Node>, ordered0: seq<Node>, seen0: set<NodeId>)
    returns (ordered: seq<Node>)
    requires Indexed(byId) && Known(byId, nodes)
    ensures ordered == ordered0 + Visit(byId, nodes, seen0).0
  {
    ordered := ordered0;
    var seen := seen0;
    assert ordered0 + [] == ordered0;
    for i := 0 to |nodes|
      invariant ordered == ordered0 + Visit(byId, nodes[..i], seen0).0 && seen == Visit(byId, nodes[..i], seen0).1
    {
      assert nodes[..i + 1] == nodes[..i] + [nodes[i]];
      VisitOneMore(byId, nodes[..i], nodes[i], seen0);
      if nodes[i].nodeId !in seen {
        ordered, seen := VisitRoot(byId, nodes[i], ordered, seen);
      }
    }
    assert nodes[..|nodes|] == nodes;
  }

  /** The snapshot's listing: it ends on every graph and is the recursive depth-first order. */
  method ListInOrder(nodes: seq<Node>) returns (ordered: seq<Node>)
    ensures ordered == Order(nodes)
    ensures DistinctIds(ordered) && Ids(ordered) == Ids(nodes)
    ensures forall trees :: ListsForest(nodes, trees) ==> ordered == Preorder(trees)
  {
    var byId := ById(nodes);
    var seen;
    ordered, seen := VisitRoots(byId, nodes);
    ordered := VisitRest(byId, nodes, ordered, seen);
    VisitConcat(byId, Roots(byId, nodes), nodes, {});
    OrderListsEachIdOnce(nodes);
    forall trees | ListsForest(nodes, trees) ensures Order(nodes) == Preorder(trees) {
      ForestComesOutInPreorder(nodes, trees);
    }
  }
}
