/** Pictures the accessibility tree leaves out, put back where a reader meets them. */
module Pictures {
  import opened Options

  type Backend = Option<nat>

  /** One DOM node of the root document: whether it is an <img> with a usable source, and its backend id. */
  datatype DomNode = DomNode(image: bool, backend: Backend)

  datatype Picture = Picture(backend: nat, domIndex: nat)

  /** One accessibility node, in document order; `kept` unless it is ignored or says nothing. */
  datatype AxNode = AxNode(backend: Backend, kept: bool)

  datatype Entry = PictureEntry(picture: Picture) | NodeEntry(node: AxNode)

  ghost predicate Ascending(pictures: seq<Picture>) {
    forall i, j :: 0 <= i < j < |pictures| ==> pictures[i].domIndex < pictures[j].domIndex
  }

  /** The pictures of a document no accessibility node names, in document order, each exactly once. */
  method DomImages(dom: seq<DomNode>, named: set<Backend>) returns (pictures: seq<Picture>)
    ensures Ascending(pictures)
    ensures forall p :: p in pictures <==>
      && p.domIndex < |dom| && dom[p.domIndex].image
      && dom[p.domIndex].backend == Some(p.backend) && Some(p.backend) !in named
  {
    pictures := [];
    for index := 0 to |dom|
      invariant Ascending(pictures) && forall k :: 0 <= k < |pictures| ==> pictures[k].domIndex < index
      invariant forall p :: p in pictures <==>
        p.domIndex < index && dom[p.domIndex].image && dom[p.domIndex].backend == Some(p.backend)
        && Some(p.backend) !in named
    {
      if dom[index].image && dom[index].backend.Some? && dom[index].backend !in named {
        pictures := pictures + [Picture(dom[index].backend.value, index)];
      }
    }
  }

  function DomOrder(dom: seq<DomNode>): map<Backend, nat> {
    if dom == [] then map[] else DomOrder(dom[..|dom| - 1])[dom[|dom| - 1].backend := |dom| - 1]
  }

  /** The DOM index of a backend id is that of the last node carrying it. */
  lemma {:induction false} DomOrderIsLast(dom: seq<DomNode>, b: Backend)
    ensures b in DomOrder(dom) <==> exists i :: 0 <= i < |dom| && dom[i].backend == b
    ensures b in DomOrder(dom) ==> DomOrder(dom)[b] < |dom| && dom[DomOrder(dom)[b]].backend == b
    ensures b in DomOrder(dom) ==> forall i :: DomOrder(dom)[b] < i < |dom| ==> dom[i].backend != b
  {
    if dom != [] {
      var short := dom[..|dom| - 1];
      DomOrderIsLast(short, b);
      assert forall i :: 0 <= i < |short| ==> short[i] == dom[i];
    }
  }

  function Kept(nodes: seq<AxNode>): seq<AxNode> {
    if nodes == [] then []
    else Kept(nodes[..|nodes| - 1]) + (if nodes[|nodes| - 1].kept then [nodes[|nodes| - 1]] else [])
  }

  function NodesOf(entries: seq<Entry>): seq<AxNode> {
    if entries == [] then []
    else NodesOf(entries[..|entries| - 1])
         + (if entries[|entries| - 1].NodeEntry? then [entries[|entries| - 1].node] else [])
  }

  function PicturesOf(entries: seq<Entry>): seq<Picture> {
    if entries == [] then []
    else PicturesOf(entries[..|entries| - 1])
         + (if entries[|entries| - 1].PictureEntry? then [entries[|entries| - 1].picture] else [])
  }

  /** The entry is a kept node that stands after `domIndex` in the document. */
  predicate Beyond(order: map<Backend, nat>, entry: Entry, domIndex: nat) {
    entry.NodeEntry? && entry.node.backend in order && order[entry.node.backend] > domIndex
  }

  /** No node before position `at` stands after the picture in the document, and what follows the picture is another
      picture, the first node that does, or nothing. */
  ghost predicate InPlace(order: map<Backend, nat>, entries: seq<Entry>, at: nat)
    requires at < |entries| && entries[at].PictureEntry?
  {
    && (forall k :: 0 <= k < at ==> !Beyond(order, entries[k], entries[at].picture.domIndex))
    && (at + 1 < |entries| && entries[at + 1].NodeEntry? ==>
      Beyond(order, entries[at + 1], entries[at].picture.domIndex))
  }

  ghost predicate AllInPlace(order: map<Backend, nat>, entries: seq<Entry>) {
    forall at :: 0 <= at < |entries| && entries[at].PictureEntry? ==> InPlace(order, entries, at)
  }

  lemma {:induction false} AppendNode(entries: seq<Entry>, node: AxNode)
    ensures NodesOf(entries + [NodeEntry(node)]) == NodesOf(entries) + [node]
    ensures PicturesOf(entries + [NodeEntry(node)]) == PicturesOf(entries)
  {
    assert (entries + [NodeEntry(node)])[..|entries|] == entries;
    assert PicturesOf(entries) + [] == PicturesOf(entries);
  }

  lemma {:induction false} AppendPicture(entries: seq<Entry>, picture: Picture)
    ensures PicturesOf(entries + [PictureEntry(picture)]) == PicturesOf(entries) + [picture]
    ensures NodesOf(entries + [PictureEntry(picture)]) == NodesOf(entries)
  {
    assert (entries + [PictureEntry(picture)])[..|entries|] == entries;
    assert NodesOf(entries) + [] == NodesOf(entries);
  }

  /** Everything emitted so far is in place, and no node so far stands after a picture that still waits. */
  ghost predicate Placed(order: map<Backend, nat>, entries: seq<Entry>, waiting: seq<Picture>) {
    && AllInPlace(order, entries)
    && (forall k, w :: 0 <= k < |entries| && 0 <= w < |waiting| ==> !Beyond(order, entries[k], waiting[w].domIndex))
  }

  /** Emits the waiting pictures that stand before `domIndex`, or all of them when there is none. */
  method PlaceBefore(order: map<Backend, nat>, entries0: seq<Entry>, waiting0: seq<Picture>, domIndex: Option<nat>)
    returns (entries: seq<Entry>, waiting: seq<Picture>)
    requires Ascending(waiting0) && Placed(order, entries0, waiting0)
    requires entries0 != [] && entries0[|entries0| - 1].PictureEntry? && domIndex.Some? ==>
      entries0[|entries0| - 1].picture.domIndex < domIndex.value
    ensures Ascending(waiting) && Placed(order, entries, waiting)
    ensures NodesOf(entries) == NodesOf(entries0)
    ensures PicturesOf(entries) + waiting == PicturesOf(entries0) + waiting0
    ensures if domIndex.None? then waiting == []
            else (waiting != [] ==> waiting[0].domIndex >= domIndex.value)
    ensures entries != [] && entries[|entries| - 1].PictureEntry? && domIndex.Some? ==>
      entries[|entries| - 1].picture.domIndex < domIndex.value
  {
    entries, waiting := entries0, waiting0;
    while waiting != [] && (domIndex.None? || waiting[0].domIndex < domIndex.value)
      invariant Ascending(waiting) && Placed(order, entries, waiting)
      invariant NodesOf(entries) == NodesOf(entries0)
      invariant PicturesOf(entries) + waiting == PicturesOf(entries0) + waiting0
      invariant entries != [] && entries[|entries| - 1].PictureEntry? && domIndex.Some? ==>
        entries[|entries| - 1].picture.domIndex < domIndex.value
    {
      PictureStays(order, entries, waiting);
      PictureMoves(entries, waiting);
      entries, waiting := entries + [PictureEntry(waiting[0])], waiting[1..];
    }
  }

  lemma {:induction false} PictureStays(order: map<Backend, nat>, entries: seq<Entry>, waiting: seq<Picture>)
    requires waiting != [] && Ascending(waiting) && Placed(order, entries, waiting)
    ensures Placed(order, entries + [PictureEntry(waiting[0])], waiting[1..]) && Ascending(waiting[1..])
  {
    var n := entries + [PictureEntry(waiting[0])];
    forall at | 0 <= at < |n| && n[at].PictureEntry? ensures InPlace(order, n, at) {
      if at < |entries| { assert InPlace(order, entries, at); }
    }
    forall k, x | 0 <= k < |n| && 0 <= x < |waiting[1..]| ensures !Beyond(order, n[k], waiting[1..][x].domIndex) {
      assert waiting[1..][x] == waiting[x + 1];
    }
  }

  lemma {:induction false} PictureMoves(entries: seq<Entry>, waiting: seq<Picture>)
    requires waiting != []
    ensures PicturesOf(entries + [PictureEntry(waiting[0])]) + waiting[1..] == PicturesOf(entries) + waiting
    ensures NodesOf(entries + [PictureEntry(waiting[0])]) == NodesOf(entries)
  {
    AppendPicture(entries, waiting[0]);
    assert PicturesOf(entries) + waiting == (PicturesOf(entries) + [waiting[0]]) + waiting[1..];
  }

  lemma {:induction false} NodeStays(order: map<Backend, nat>, entries: seq<Entry>, waiting: seq<Picture>, node: AxNode)
    requires Placed(order, entries, waiting)
    requires entries != [] && entries[|entries| - 1].PictureEntry? ==>
      Beyond(order, NodeEntry(node), entries[|entries| - 1].picture.domIndex)
    requires forall w :: 0 <= w < |waiting| ==> !Beyond(order, NodeEntry(node), waiting[w].domIndex)
    ensures Placed(order, entries + [NodeEntry(node)], waiting)
  {
    var n := entries + [NodeEntry(node)];
    forall at | 0 <= at < |n| && n[at].PictureEntry? ensures InPlace(order, n, at) {
      assert InPlace(order, entries, at);
    }
  }

  /** One kept node, after the pictures that go before it. */
  method EmitNode(order: map<Backend, nat>, entries0: seq<Entry>, waiting0: seq<Picture>, node: AxNode)
    returns (entries: seq<Entry>, waiting: seq<Picture>)
    requires Ascending(waiting0) && Placed(order, entries0, waiting0)
    requires entries0 != [] ==> entries0[|entries0| - 1].NodeEntry?
    ensures Ascending(waiting) && Placed(order, entries, waiting)
    ensures entries != [] && entries[|entries| - 1].NodeEntry?
    ensures NodesOf(entries) == NodesOf(entries0) + [node]
    ensures PicturesOf(entries) + waiting == PicturesOf(entries0) + waiting0
  {
    entries, waiting := entries0, waiting0;
    if node.backend in order {
      entries, waiting := PlaceBefore(order, entries, waiting, Some(order[node.backend]));
    }
    NodeStays(order, entries, waiting, node);
    AppendNode(entries, node);
    entries := entries + [NodeEntry(node)];
  }

  /** The merge: both inputs keep their order, each picture comes out exactly once, just before the first kept node that
      stands after it in the document, or at the end when there is none. */
  method Merge(nodes: seq<AxNode>, pictures: seq<Picture>, order: map<Backend, nat>) returns (entries: seq<Entry>)
    requires Ascending(pictures)
    ensures NodesOf(entries) == Kept(nodes) && PicturesOf(entries) == pictures
    ensures AllInPlace(order, entries)
  {
    entries := [];
    var waiting := pictures;
    for i := 0 to |nodes|
      invariant Ascending(waiting) && Placed(order, entries, waiting)
      invariant NodesOf(entries) == Kept(nodes[..i]) && PicturesOf(entries) + waiting == pictures
      invariant entries != [] ==> entries[|entries| - 1].NodeEntry?
    {
      assert nodes[..i + 1][..i] == nodes[..i] && nodes[..i + 1][i] == nodes[i];
      if nodes[i].kept {
        entries, waiting := EmitNode(order, entries, waiting, nodes[i]);
      } else {
        assert Kept(nodes[..i]) + [] == Kept(nodes[..i]);
      }
    }
    assert nodes[..|nodes|] == nodes;
    entries, waiting := PlaceBefore(order, entries, waiting, None);
    assert PicturesOf(entries) + [] == PicturesOf(entries);
  }

  lemma {:induction false} LastPicture(entries: seq<Entry>) returns (q: nat)
    requires PicturesOf(entries) != []
    ensures q < |entries| && entries[q] == PictureEntry(PicturesOf(entries)[|PicturesOf(entries)| - 1])
    ensures forall k :: q < k < |entries| ==> entries[k].NodeEntry?
  {
    if entries[|entries| - 1].PictureEntry? {
      q := |entries| - 1;
    } else {
      assert PicturesOf(entries) == PicturesOf(entries[..|entries| - 1]);
      q := LastPicture(entries[..|entries| - 1]);
    }
  }

  lemma {:induction false} NodesListed(entries: seq<Entry>, node: AxNode)
    ensures node in NodesOf(entries) <==> NodeEntry(node) in entries
  {
    if entries != [] {
      var last := entries[|entries| - 1];
      NodesListed(entries[..|entries| - 1], node);
      assert entries == entries[..|entries| - 1] + [last];
    }
  }

  /** The two listings cannot end differently. */
  lemma {:induction false} SameEnd(order: map<Backend, nat>, a: seq<Entry>, b: seq<Entry>)
    requires NodesOf(a) == NodesOf(b) && PicturesOf(a) == PicturesOf(b)
    requires AllInPlace(order, a) && AllInPlace(order, b)
    requires a != [] && a[|a| - 1].PictureEntry?
    ensures b != [] && b[|b| - 1].PictureEntry?
  {
    var q := LastPicture(b);
    if q < |b| - 1 {
      assert InPlace(order, b, q) && InPlace(order, a, |a| - 1) && b[q] == a[|a| - 1];
      NodesListed(b, b[q + 1].node);
      NodesListed(a, b[q + 1].node);
      assert false;
    }
  }

  lemma {:induction false} PrefixInPlace(order: map<Backend, nat>, a: seq<Entry>)
    requires AllInPlace(order, a) && a != []
    ensures AllInPlace(order, a[..|a| - 1])
  {
    forall at | 0 <= at < |a| - 1 && a[at].PictureEntry? ensures InPlace(order, a[..|a| - 1], at) {
      assert InPlace(order, a, at);
    }
  }

  /** Being in place leaves no choice: two listings of the same nodes and pictures, every picture of both in place, are
      the same listing. */
  lemma {:induction false} PlacesFixListing(order: map<Backend, nat>, a: seq<Entry>, b: seq<Entry>)
    requires NodesOf(a) == NodesOf(b) && PicturesOf(a) == PicturesOf(b)
    requires AllInPlace(order, a) && AllInPlace(order, b)
    ensures a == b
    decreases |a|
  {
    if a == [] {
      if b != [] {
        if b[|b| - 1].NodeEntry? { NodesListed(b, b[|b| - 1].node); } else { SameEnd(order, b, a); }
        assert false;
      }
    } else {
      if a[|a| - 1].PictureEntry? {
        SameEnd(order, a, b);
      } else {
        NodesListed(a, a[|a| - 1].node);
        if b == [] { assert false; }
        if b[|b| - 1].PictureEntry? { SameEnd(order, b, a); }
      }
      PrefixInPlace(order, a);
      PrefixInPlace(order, b);
      SameTail(a, b);
      PlacesFixListing(order, a[..|a| - 1], b[..|b| - 1]);
      assert a == a[..|a| - 1] + [a[|a| - 1]] && b == b[..|b| - 1] + [b[|b| - 1]];
    }
  }

  lemma {:induction false} SameTail(a: seq<Entry>, b: seq<Entry>)
    requires a != [] && b != [] && a[|a| - 1].NodeEntry? == b[|b| - 1].NodeEntry?
    requires NodesOf(a) == NodesOf(b) && PicturesOf(a) == PicturesOf(b)
    ensures a[|a| - 1] == b[|b| - 1]
    ensures NodesOf(a[..|a| - 1]) == NodesOf(b[..|b| - 1]) && PicturesOf(a[..|a| - 1]) == PicturesOf(b[..|b| - 1])
  {
    var a1, b1 := a[..|a| - 1], b[..|b| - 1];
    if a[|a| - 1].NodeEntry? {
      assert NodesOf(a)[..|NodesOf(a)| - 1] == NodesOf(a1) && NodesOf(b)[..|NodesOf(b)| - 1] == NodesOf(b1);
      assert NodesOf(a)[|NodesOf(a)| - 1] == a[|a| - 1].node && NodesOf(b)[|NodesOf(b)| - 1] == b[|b| - 1].node;
      assert PicturesOf(a) == PicturesOf(a1) && PicturesOf(b) == PicturesOf(b1);
    } else {
      assert PicturesOf(a)[..|PicturesOf(a)| - 1] == PicturesOf(a1);
      assert PicturesOf(b)[..|PicturesOf(b)| - 1] == PicturesOf(b1);
      assert PicturesOf(a)[|PicturesOf(a)| - 1] == a[|a| - 1].picture;
      assert PicturesOf(b)[|PicturesOf(b)| - 1] == b[|b| - 1].picture;
      assert NodesOf(a) == NodesOf(a1) && NodesOf(b) == NodesOf(b1);
    }
  }
}
