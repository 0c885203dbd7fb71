/** What a fill on an observed text node would replace: one backward pass over a DOM snapshot computes, for every node
    at once, its text content, its length, its element count and whether anything below it is a shadow tree. */
module FillTargets {
  import opened Options
  import opened Text

  const TEXT_LIMIT := 500

  const ELEMENT := 1
  const TEXT_NODE := 3
  const CDATA := 4
  const DOCUMENT := 9
  const FRAGMENT := 11

  type Backend = Option<nat>

  /** One node of a snapshot document. `parent` is absent when the snapshot gives no integer. */
  datatype Node = Node(nodeType: int, name: Text, value: Text, parent: Option<int>, shadowRoot: bool, backend: Backend)

  predicate IsText(node: Node) { node.nodeType == TEXT_NODE || node.nodeType == CDATA }

  /** The node whose content this one adds to: an earlier node, unless this is a document or a shadow or template tree,
      whose text is not its host's. */
  function Link(nodes: seq<Node>, i: nat): (p: Option<nat>)
    requires i < |nodes|
    ensures p.Some? ==> p.value < i
  {
    var parent := nodes[i].parent;
    if parent.None? || parent.value < 0 || parent.value >= i then None
    else if nodes[i].nodeType == FRAGMENT || nodes[i].nodeType == DOCUMENT then None
    else Some(parent.value as nat)
  }

  // ---- The recursive definitions.

  /** The full text of a node: its own value for text, else the texts of its linked children in document order. */
  ghost function FullText(nodes: seq<Node>, i: nat): Text
    requires i < |nodes|
    decreases |nodes| - i, 0
  {
    if IsText(nodes[i]) then nodes[i].value else TextBelow(nodes, i, i + 1)
  }

  /** The texts of the children linked to `p` from index `from` on. */
  ghost function TextBelow(nodes: seq<Node>, p: nat, from: nat): Text
    requires p < from <= |nodes|
    decreases |nodes| - from, 1
  {
    if from == |nodes| then []
    else (if Link(nodes, from) == Some(p) then FullText(nodes, from) else []) + TextBelow(nodes, p, from + 1)
  }

  /** How many elements stand below a node, counted child by child. */
  ghost function Elements(nodes: seq<Node>, i: nat): nat
    requires i < |nodes|
    decreases |nodes| - i, 0
  {
    ElementsBelow(nodes, i, i + 1)
  }

  ghost function ElementsBelow(nodes: seq<Node>, p: nat, from: nat): nat
    requires p < from <= |nodes|
    decreases |nodes| - from, 1
  {
    if from == |nodes| then 0
    else
      (if Link(nodes, from) == Some(p) then Elements(nodes, from) + (if nodes[from].nodeType == ELEMENT then 1 else 0)
       else 0) + ElementsBelow(nodes, p, from + 1)
  }

  ghost predicate Shadowed(nodes: seq<Node>, i: nat)
    requires i < |nodes|
    decreases |nodes| - i, 0
  {
    nodes[i].shadowRoot || ShadowBelow(nodes, i, i + 1)
  }

  ghost predicate ShadowBelow(nodes: seq<Node>, p: nat, from: nat)
    requires p < from <= |nodes|
    decreases |nodes| - from, 1
  {
    from < |nodes| && ((Link(nodes, from) == Some(p) && Shadowed(nodes, from)) || ShadowBelow(nodes, p, from + 1))
  }

  // ---- What they mean: descendants along links.

  /** `d` stands below `a`: a chain of links leads from it to `a`. */
  ghost predicate Descends(nodes: seq<Node>, d: nat, a: nat)
    requires d < |nodes|
    decreases d
  {
    Link(nodes, d).Some? && (Link(nodes, d).value == a || Descends(nodes, Link(nodes, d).value, a))
  }

  /** The child of `a` through which `d` descends from it. */
  ghost function Through(nodes: seq<Node>, d: nat, a: nat): (k: nat)
    requires d < |nodes| && Descends(nodes, d, a)
    ensures a < k <= d && Link(nodes, k) == Some(a) && (k == d || Descends(nodes, d, k))
    decreases d
  {
    if Link(nodes, d).value == a then d else Through(nodes, Link(nodes, d).value, a)
  }

  /** The elements that descend from `p` through its children from index `from` on. */
  ghost function ElementsThrough(nodes: seq<Node>, p: nat, from: nat): set<nat>
    requires p < from <= |nodes|
  {
    set d: nat | d < |nodes| && nodes[d].nodeType == ELEMENT && Descends(nodes, d, p) && Through(nodes, d, p) >= from
  }

  ghost function ElementsUnder(nodes: seq<Node>, a: nat): set<nat>
    requires a < |nodes|
  {
    set d: nat | d < |nodes| && nodes[d].nodeType == ELEMENT && Descends(nodes, d, a)
  }

  /** Descending from a child of `p` is descending from `p` through that child. */
  lemma {:induction false} DescendsThrough(nodes: seq<Node>, d: nat, k: nat, p: nat)
    requires d < |nodes| && k < |nodes| && Link(nodes, k) == Some(p)
    ensures (d == k || Descends(nodes, d, k)) <==> Descends(nodes, d, p) && Through(nodes, d, p) == k
    decreases d
  {
    var up := Link(nodes, d);
    if up.Some? {
      if up.value == p {
        if Descends(nodes, d, k) { DescendsDown(nodes, d, k); }
      } else {
        DescendsThrough(nodes, up.value, k, p);
      }
    }
  }

  lemma {:induction false} DescendsDown(nodes: seq<Node>, d: nat, a: nat)
    requires d < |nodes| && Descends(nodes, d, a)
    ensures Link(nodes, d).value >= a
    decreases d
  {
    var up := Link(nodes, d).value;
    if up != a { DescendsDown(nodes, up, a); }
  }

  /** The elements through the children from `from` on: those through later children and, when `from` is a child, itself
      and what stands under it. */
  lemma {:induction false} ElementsSplit(nodes: seq<Node>, p: nat, from: nat)
    requires p < from < |nodes| && Link(nodes, from) == Some(p)
    ensures var own := if nodes[from].nodeType == ELEMENT then {from} else {};
      && ElementsThrough(nodes, p, from) == ElementsThrough(nodes, p, from + 1) + (own + ElementsUnder(nodes, from))
      && ElementsThrough(nodes, p, from + 1) !! (own + ElementsUnder(nodes, from)) && own !! ElementsUnder(nodes, from)
  {
    forall d: nat | d < |nodes|
      ensures (d == from || Descends(nodes, d, from)) <==> Descends(nodes, d, p) && Through(nodes, d, p) == from
    {
      DescendsThrough(nodes, d, from, p);
    }
    if Descends(nodes, from, from) { DescendsDown(nodes, from, from); }
  }

  lemma {:induction false} ElementsSkip(nodes: seq<Node>, p: nat, from: nat)
    requires p < from < |nodes| && Link(nodes, from) != Some(p)
    ensures ElementsThrough(nodes, p, from) == ElementsThrough(nodes, p, from + 1)
  {}

  lemma {:induction false} ElementsJoin(a: set<nat>, b: set<nat>, x: nat, own: bool)
    requires var first: set<nat> := if own then {x} else {}; a !! (first + b) && first !! b
    ensures var first: set<nat> := if own then {x} else {}; |a + (first + b)| == |b| + (if own then 1 else 0) + |a|
  {
  }

  lemma {:induction false} ElementsLinked(nodes: seq<Node>, p: nat, from: nat)
    requires p < from < |nodes| && Link(nodes, from) == Some(p)
    ensures |ElementsThrough(nodes, p, from)|
         == |ElementsUnder(nodes, from)| + (if nodes[from].nodeType == ELEMENT then 1 else 0)
            + |ElementsThrough(nodes, p, from + 1)|
  {
    ElementsSplit(nodes, p, from);
    ElementsJoin(ElementsThrough(nodes, p, from + 1), ElementsUnder(nodes, from), from,
                 nodes[from].nodeType == ELEMENT);
  }

  lemma {:induction false} ElementsBelowCounts(nodes: seq<Node>, p: nat, from: nat)
    requires p < from <= |nodes|
    ensures ElementsBelow(nodes, p, from) == |ElementsThrough(nodes, p, from)|
    decreases |nodes| - from, 1
  {
    if from == |nodes| {
      assert ElementsThrough(nodes, p, from) == {};
    } else {
      ElementsBelowCounts(nodes, p, from + 1);
      if Link(nodes, from) == Some(p) {
        ElementsCount(nodes, from);
        ElementsLinked(nodes, p, from);
      } else {
        ElementsSkip(nodes, p, from);
      }
    }
  }

  /** The count is exactly the number of element descendants. */
  lemma {:induction false} ElementsCount(nodes: seq<Node>, i: nat)
    requires i < |nodes|
    ensures Elements(nodes, i) == |ElementsUnder(nodes, i)|
    decreases |nodes| - i, 0
  {
    ElementsBelowCounts(nodes, i, i + 1);
    assert ElementsThrough(nodes, i, i + 1) == ElementsUnder(nodes, i);
  }

  lemma {:induction false} ShadowBelowMeans(nodes: seq<Node>, p: nat, from: nat)
    requires p < from <= |nodes|
    ensures ShadowBelow(nodes, p, from) <==>
      exists d: nat :: d < |nodes| && nodes[d].shadowRoot && Descends(nodes, d, p) && Through(nodes, d, p) >= from
    decreases |nodes| - from, 1
  {
    if from < |nodes| {
      ShadowBelowMeans(nodes, p, from + 1);
      if Link(nodes, from) == Some(p) {
        ShadowMeans(nodes, from);
        forall d: nat | d < |nodes|
          ensures (d == from || Descends(nodes, d, from)) <==> Descends(nodes, d, p) && Through(nodes, d, p) == from
        {
          DescendsThrough(nodes, d, from, p);
        }
      }
    }
  }

  /** A node is shadowed exactly when it or a descendant carries the shadow-root attribute. */
  lemma {:induction false} ShadowMeans(nodes: seq<Node>, i: nat)
    requires i < |nodes|
    ensures Shadowed(nodes, i) <==>
      exists d: nat :: d < |nodes| && nodes[d].shadowRoot && (d == i || Descends(nodes, d, i))
    decreases |nodes| - i, 0
  {
    ShadowBelowMeans(nodes, i, i + 1);
  }

  /** No count reaches the snapshot's size, so 32 bits hold every one of them. */
  lemma {:induction false} ElementsFit(nodes: seq<Node>, i: nat)
    requires i < |nodes|
    ensures Elements(nodes, i) < |nodes|
  {
    ElementsCount(nodes, i);
    var all := Below(|nodes|);
    assert ElementsUnder(nodes, i) <= all - {i} by {
      if Descends(nodes, i, i) { DescendsDown(nodes, i, i); }
    }
    SubsetSize(ElementsUnder(nodes, i), all - {i});
  }

  ghost function Below(n: nat): (all: set<nat>)
    ensures |all| == n && forall d: nat :: d in all <==> d < n
  {
    if n == 0 then {} else Below(n - 1) + {n - 1}
  }

  lemma {:induction false} SubsetSize(a: set<nat>, b: set<nat>)
    requires a <= b
    ensures |a| <= |b|
    decreases a
  {
    if a != {} {
      var x :| x in a;
      SubsetSize(a - {x}, b - {x});
    }
  }

  // ---- The backward pass.

  function Clip(t: Text): Text { if |t| <= TEXT_LIMIT then t else t[..TEXT_LIMIT] }

  /** Clipping before joining loses nothing that clipping the whole would keep. */
  lemma {:induction false} ClipJoins(a: Text, b: Text)
    ensures Clip(Clip(a) + Clip(b)) == Clip(a + b)
  {
    assert |a| > TEXT_LIMIT ==> (a + b)[..TEXT_LIMIT] == a[..TEXT_LIMIT];
  }

  /** The arrays once every index from `from` on is done: nodes from there on are final, earlier ones hold what their
      children so far have brought. */
  ghost predicate Passed(nodes: seq<Node>, from: nat, contents: seq<Text>, lengths: seq<nat>, elements: seq<nat>,
                         shadow: seq<bool>)
    requires from <= |nodes| == |contents| == |lengths| == |elements| == |shadow|
  {
    && (forall i :: from <= i < |nodes| ==> FinalAt(nodes, i, contents[i], lengths[i], elements[i], shadow[i]))
    && (forall i :: 0 <= i < from ==> PartialAt(nodes, i, from, contents[i], lengths[i], elements[i], shadow[i]))
  }

  ghost predicate FinalAt(nodes: seq<Node>, i: nat, content: Text, length: nat, elements: nat, shadow: bool)
    requires i < |nodes|
  {
    && content == Clip(FullText(nodes, i)) && length == |FullText(nodes, i)|
    && elements == Elements(nodes, i) && shadow == Shadowed(nodes, i)
  }

  ghost predicate PartialAt(nodes: seq<Node>, i: nat, from: nat, content: Text, length: nat, elements: nat,
                            shadow: bool)
    requires i < from <= |nodes|
  {
    && content == Clip(TextBelow(nodes, i, from)) && length == |TextBelow(nodes, i, from)|
    && elements == ElementsBelow(nodes, i, from)
    && shadow == (nodes[i].shadowRoot || ShadowBelow(nodes, i, from))
  }

  /** A node that is not its link is left alone by an index. */
  lemma {:induction false} PartialPasses(nodes: seq<Node>, i: nat, index: nat, content: Text, length: nat,
                                         elements: nat,
                                         shadow: bool)
    requires i < index < |nodes| && Link(nodes, index) != Some(i)
    requires PartialAt(nodes, i, index + 1, content, length, elements, shadow)
    ensures PartialAt(nodes, i, index, content, length, elements, shadow)
  {
    assert [] + TextBelow(nodes, i, index + 1) == TextBelow(nodes, i, index + 1);
  }

  /** The link of an index takes its final values in. */
  lemma {:induction false} PartialTakes(nodes: seq<Node>, p: nat, index: nat, content: Text, length: nat, elements: nat,
                                        shadow: bool, c: Text, l: nat, e: nat, s: bool)
    requires p < index < |nodes| && Link(nodes, index) == Some(p)
    requires PartialAt(nodes, p, index + 1, content, length, elements, shadow) && FinalAt(nodes, index, c, l, e, s)
    ensures PartialAt(nodes, p, index, Clip(c + content), length + l,
                      elements + e + (if nodes[index].nodeType == ELEMENT then 1 else 0), shadow || s)
  {
    ClipJoins(FullText(nodes, index), TextBelow(nodes, p, index + 1));
  }

  lemma {:induction false} PartialBecomesFinal(nodes: seq<Node>, index: nat, content: Text, length: nat, elements: nat,
                                               shadow: bool)
    requires index < |nodes| && PartialAt(nodes, index, index + 1, content, length, elements, shadow)
    ensures FinalAt(nodes, index, if IsText(nodes[index]) then Clip(nodes[index].value) else content,
                    if IsText(nodes[index]) then |nodes[index].value| else length, elements, shadow)
  {}

  /** One index of the pass: its own entry becomes final, its link's entry takes it in, the others stay. */
  lemma {:induction false} PassStep(nodes: seq<Node>, index: nat, contents: seq<Text>, lengths: seq<nat>,
                                    elements: seq<nat>, shadow: seq<bool>)
    requires index < |nodes| == |contents| == |lengths| == |elements| == |shadow|
    requires Passed(nodes, index + 1, contents, lengths, elements, shadow)
    ensures var own := Own(nodes, index, contents[index], lengths[index]);
      Passed(nodes, index, AddContent(nodes, index, contents[index := own.0]),
             AddLength(nodes, index, lengths[index := own.1]), AddElements(nodes, index, elements),
             AddShadow(nodes, index, shadow))
  {
    var own := Own(nodes, index, contents[index], lengths[index]);
    OwnBecomesFinal(nodes, index, contents, lengths, elements, shadow);
    forall i | 0 <= i < index
      ensures PartialAt(nodes, i, index, AddContent(nodes, index, contents[index := own.0])[i],
                        AddLength(nodes, index, lengths[index := own.1])[i], AddElements(nodes, index, elements)[i],
                        AddShadow(nodes, index, shadow)[i])
    {
      EarlierTakes(nodes, index, contents, lengths, elements, shadow, i);
    }
    forall i | index < i < |nodes| ensures FinalAt(nodes, i, contents[i], lengths[i], elements[i], shadow[i]) {
    }
  }

  lemma {:induction false} OwnBecomesFinal(nodes: seq<Node>, index: nat, contents: seq<Text>, lengths: seq<nat>,
                                           elements: seq<nat>, shadow: seq<bool>)
    requires index < |nodes| == |contents| == |lengths| == |elements| == |shadow|
    requires Passed(nodes, index + 1, contents, lengths, elements, shadow)
    ensures var own := Own(nodes, index, contents[index], lengths[index]);
      FinalAt(nodes, index, own.0, own.1, elements[index], shadow[index])
  {
    assert PartialAt(nodes, index, index + 1, contents[index], lengths[index], elements[index], shadow[index]);
    PartialBecomesFinal(nodes, index, contents[index], lengths[index], elements[index], shadow[index]);
  }

  lemma {:induction false} EarlierTakes(nodes: seq<Node>, index: nat, contents: seq<Text>, lengths: seq<nat>,
                                        elements: seq<nat>, shadow: seq<bool>, i: nat)
    requires i < index < |nodes| == |contents| == |lengths| == |elements| == |shadow|
    requires Passed(nodes, index + 1, contents, lengths, elements, shadow)
    ensures var own := Own(nodes, index, contents[index], lengths[index]);
      PartialAt(nodes, i, index, AddContent(nodes, index, contents[index := own.0])[i],
                AddLength(nodes, index, lengths[index := own.1])[i], AddElements(nodes, index, elements)[i],
                AddShadow(nodes, index, shadow)[i])
  {
    var own := Own(nodes, index, contents[index], lengths[index]);
    assert PartialAt(nodes, i, index + 1, contents[i], lengths[i], elements[i], shadow[i]);
    if Link(nodes, index) == Some(i) {
      OwnBecomesFinal(nodes, index, contents, lengths, elements, shadow);
      PartialTakes(nodes, i, index, contents[i], lengths[i], elements[i], shadow[i],
                   own.0, own.1, elements[index], shadow[index]);
    } else {
      PartialPasses(nodes, i, index, contents[i], lengths[i], elements[i], shadow[i]);
    }
  }

  function Own(nodes: seq<Node>, index: nat, content: Text, length: nat): (Text, nat)
    requires index < |nodes|
  {
    if IsText(nodes[index]) then (Clip(nodes[index].value), |nodes[index].value|) else (content, length)
  }

  function AddContent(nodes: seq<Node>, index: nat, contents: seq<Text>): (r: seq<Text>)
    requires index < |nodes| == |contents|
    ensures |r| == |contents|
  {
    match Link(nodes, index)
    case None => contents
    case Some(parent) => contents[parent := Clip(contents[index] + contents[parent])]
  }

  function AddLength(nodes: seq<Node>, index: nat, lengths: seq<nat>): (r: seq<nat>)
    requires index < |nodes| == |lengths|
    ensures |r| == |lengths|
  {
    match Link(nodes, index)
    case None => lengths
    case Some(parent) => lengths[parent := lengths[parent] + lengths[index]]
  }

  function AddElements(nodes: seq<Node>, index: nat, elements: seq<nat>): (r: seq<nat>)
    requires index < |nodes| == |elements|
    ensures |r| == |elements|
  {
    match Link(nodes, index)
    case None => elements
    case Some(parent) =>
      elements[parent := elements[parent] + elements[index] + if nodes[index].nodeType == ELEMENT then 1 else 0]
  }

  function AddShadow(nodes: seq<Node>, index: nat, shadow: seq<bool>): (r: seq<bool>)
    requires index < |nodes| == |shadow|
    ensures |r| == |shadow|
  {
    match Link(nodes, index)
    case None => shadow
    case Some(parent) => shadow[parent := shadow[parent] || shadow[index]]
  }

  /** The body of the pass at one index: a text node's own value, then what its link takes in. */
  method PassOne(nodes: seq<Node>, index: nat, contents: array<Text>, lengths: array<nat>, elements: array<nat>,
                 shadow: array<bool>)
    requires index < |nodes| == contents.Length == lengths.Length == elements.Length == shadow.Length
    requires lengths != elements
    modifies contents, lengths, elements, shadow
    ensures var own := Own(nodes, index, old(contents[index]), old(lengths[index]));
      && contents[..] == AddContent(nodes, index, old(contents[..])[index := own.0])
      && lengths[..] == AddLength(nodes, index, old(lengths[..])[index := own.1])
    ensures elements[..] == AddElements(nodes, index, old(elements[..]))
    ensures shadow[..] == AddShadow(nodes, index, old(shadow[..]))
  {
    if IsText(nodes[index]) {
      contents[index] := Clip(nodes[index].value);
      lengths[index] := |nodes[index].value|;
    }
    var link := Link(nodes, index);
    if link.Some? {
      var parent := link.value;
      shadow[parent] := shadow[parent] || shadow[index];
      contents[parent] := Clip(contents[index] + contents[parent]);
      lengths[parent] := lengths[parent] + lengths[index];
      elements[parent] := elements[parent] + elements[index] + if nodes[index].nodeType == ELEMENT then 1 else 0;
    }
  }

  lemma {:induction false} PassStarts(nodes: seq<Node>, shadow: seq<bool>)
    requires |shadow| == |nodes| && forall i :: 0 <= i < |nodes| ==> shadow[i] == nodes[i].shadowRoot
    ensures Passed(nodes, |nodes|, seq(|nodes|, _ => []), seq(|nodes|, _ => 0), seq(|nodes|, _ => 0), shadow)
  {}

  /** The whole pass: one sweep from the last node to the first computes all four for every node. */
  method BackwardPass(nodes: seq<Node>) returns (contents: array<Text>, lengths: array<nat>, elements: array<nat>,
                                                 shadow: array<bool>)
    ensures |nodes| == contents.Length == lengths.Length == elements.Length == shadow.Length
    ensures forall i :: 0 <= i < |nodes| ==> FinalAt(nodes, i, contents[i], lengths[i], elements[i], shadow[i])
  {
    var size := |nodes|;
    contents := new Text[size](_ => []);
    lengths := new nat[size](_ => 0);
    elements := new nat[size](_ => 0);
    shadow := new bool[size](i requires 0 <= i < size => nodes[i].shadowRoot);
    PassStarts(nodes, shadow[..]);
    assert contents[..] == seq(size, _ => []) && lengths[..] == seq(size, _ => 0) && elements[..] == seq(size, _ => 0);
    for index := size downto 0
      invariant Passed(nodes, index, contents[..], lengths[..], elements[..], shadow[..])
    {
      PassStep(nodes, index, contents[..], lengths[..], elements[..], shadow[..]);
      PassOne(nodes, index, contents, lengths, elements, shadow);
    }
    assert Passed(nodes, 0, contents[..], lengths[..], elements[..], shadow[..]);
    forall i | 0 <= i < size ensures FinalAt(nodes, i, contents[i], lengths[i], elements[i], shadow[i]) {
      assert FinalAt(nodes, i, contents[..][i], lengths[..][i], elements[..][i], shadow[..][i]);
    }
  }

  // ---- The targets.

  /** What a fill would replace: the value of a field, or the contents of an element. */
  datatype Target = FieldTarget(tag: Text) | ContentsTarget(tag: Text, text: Text, complete: bool, elements: nat)

  /** The element a fill on a node would act on: a text node's parent, any other node itself. */
  function At(nodes: seq<Node>, i: nat): Option<int>
    requires i < |nodes|
  {
    if nodes[i].nodeType == TEXT_NODE then nodes[i].parent else Some(i)
  }

  ghost predicate Fillable(nodes: seq<Node>, i: nat)
    requires i < |nodes|
  {
    && At(nodes, i).Some? && 0 <= At(nodes, i).value < |nodes|
    && nodes[At(nodes, i).value].nodeType == ELEMENT && !Shadowed(nodes, At(nodes, i).value)
  }

  /** What is shown for a fillable node: the first 500 units of its full text, whether that is all of it, and how many
      elements stand in it; only the tag for a form field. */
  ghost predicate Describes(lower: Text -> Text, nodes: seq<Node>, i: nat, target: Target)
    requires i < |nodes| && Fillable(nodes, i)
  {
    var at := At(nodes, i).value;
    && target.tag == lower(nodes[at].name)
    && (target.FieldTarget? <==> target.tag == Ascii("input") || target.tag == Ascii("textarea"))
    && (target.ContentsTarget? ==>
      && target.text == Clip(FullText(nodes, at)) && (target.complete <==> target.text == FullText(nodes, at))
      && target.elements == |ElementsUnder(nodes, at)|)
  }

  /** Whether node `i` of document `d` may give its backend id a target. */
  ghost predicate Gives(documents: seq<seq<Node>>, editable: set<Backend>, d: nat, i: nat) {
    d < |documents| && i < |documents[d]| && documents[d][i].backend in editable && Fillable(documents[d], i)
  }

  predicate Before(d: nat, i: nat, d1: nat, i1: nat) { d < d1 || (d == d1 && i < i1) }

  /** `(d, i)` is the last place before `(dEnd, iEnd)` to give this id a target. */
  ghost predicate LastToGive(documents: seq<seq<Node>>, editable: set<Backend>, id: Backend, d: nat, i: nat,
                             dEnd: nat, iEnd: nat) {
    && Gives(documents, editable, d, i) && documents[d][i].backend == id && Before(d, i, dEnd, iEnd)
    && forall d1: nat, i1: nat ::
      Gives(documents, editable, d1, i1) && documents[d1][i1].backend == id && Before(d1, i1, dEnd, iEnd) ==>
        !Before(d, i, d1, i1)
  }

  /** The target describes the last place before `(dEnd, iEnd)` that gives this id. */
  ghost predicate OfLast(lower: Text -> Text, documents: seq<seq<Node>>, editable: set<Backend>, id: Backend,
                         target: Target, dEnd: nat, iEnd: nat) {
    exists d: nat, i: nat ::
      LastToGive(documents, editable, id, d, i, dEnd, iEnd) && Describes(lower, documents[d], i, target)
  }

  /** The targets once everything before `(dEnd, iEnd)` was looked at: an id has one exactly when some place gave it,
      and it describes the last such place. */
  ghost predicate Collected(lower: Text -> Text, documents: seq<seq<Node>>, editable: set<Backend>,
                            targets: map<Backend, Target>, dEnd: nat, iEnd: nat) {
    && (forall d: nat, i: nat :: Gives(documents, editable, d, i) && Before(d, i, dEnd, iEnd) ==>
      documents[d][i].backend in targets)
    && (forall id :: id in targets ==> OfLast(lower, documents, editable, id, targets[id], dEnd, iEnd))
  }

  /** Looking further changes nothing for an id that no place in between gives. */
  lemma {:induction false} StaysLast(lower: Text -> Text, documents: seq<seq<Node>>, editable: set<Backend>,
                                     id: Backend,
                                     target: Target, dEnd: nat, iEnd: nat, dNext: nat, iNext: nat)
    requires OfLast(lower, documents, editable, id, target, dEnd, iEnd)
    requires forall d: nat, i: nat ::
      Gives(documents, editable, d, i) && documents[d][i].backend == id ==>
        (Before(d, i, dNext, iNext) <==> Before(d, i, dEnd, iEnd))
    ensures OfLast(lower, documents, editable, id, target, dNext, iNext)
  {
    var d: nat, i: nat :| LastToGive(documents, editable, id, d, i, dEnd, iEnd)
      && Describes(lower, documents[d], i, target);
    assert LastToGive(documents, editable, id, d, i, dNext, iNext);
  }

  lemma {:induction false} CollectedSkips(lower: Text -> Text, documents: seq<seq<Node>>, editable: set<Backend>,
                                          targets: map<Backend, Target>, d: nat, i: nat)
    requires Collected(lower, documents, editable, targets, d, i) && !Gives(documents, editable, d, i)
    ensures Collected(lower, documents, editable, targets, d, i + 1)
  {
    forall id | id in targets ensures OfLast(lower, documents, editable, id, targets[id], d, i + 1) {
      StaysLast(lower, documents, editable, id, targets[id], d, i, d, i + 1);
    }
  }

  lemma {:induction false} CollectedAdds(lower: Text -> Text, documents: seq<seq<Node>>, editable: set<Backend>,
                                         targets: map<Backend, Target>, d: nat, i: nat, target: Target)
    requires Collected(lower, documents, editable, targets, d, i) && Gives(documents, editable, d, i)
    requires Describes(lower, documents[d], i, target)
    ensures Collected(lower, documents, editable, targets[documents[d][i].backend := target], d, i + 1)
  {
    var own := documents[d][i].backend;
    var n := targets[own := target];
    forall id | id in n ensures OfLast(lower, documents, editable, id, n[id], d, i + 1) {
      if id == own {
        assert LastToGive(documents, editable, id, d, i, d, i + 1);
      } else {
        StaysLast(lower, documents, editable, id, targets[id], d, i, d, i + 1);
      }
    }
  }

  lemma {:induction false} CollectedTurns(lower: Text -> Text, documents: seq<seq<Node>>, editable: set<Backend>,
                                          targets: map<Backend, Target>, d: nat)
    requires d < |documents| && Collected(lower, documents, editable, targets, d, |documents[d]|)
    ensures Collected(lower, documents, editable, targets, d + 1, 0)
  {
    forall id | id in targets ensures OfLast(lower, documents, editable, id, targets[id], d + 1, 0) {
      StaysLast(lower, documents, editable, id, targets[id], d, |documents[d]|, d + 1, 0);
    }
  }

  /** Describes one node from the arrays of the backward pass. */
  method Describe(lower: Text -> Text, nodes: seq<Node>, i: nat, contents: array<Text>, lengths: array<nat>,
                  elements: array<nat>, shadow: array<bool>) returns (target: Option<Target>)
    requires i < |nodes| == contents.Length == lengths.Length == elements.Length == shadow.Length
    requires forall k :: 0 <= k < |nodes| ==> FinalAt(nodes, k, contents[k], lengths[k], elements[k], shadow[k])
    ensures target.Some? <==> Fillable(nodes, i)
    ensures target.Some? ==> Describes(lower, nodes, i, target.value)
  {
    var place := At(nodes, i);
    if place.None? || place.value < 0 || place.value >= |nodes| { return None; }
    if nodes[place.value].nodeType != ELEMENT { return None; }
    var at := place.value;
    assert FinalAt(nodes, at, contents[at], lengths[at], elements[at], shadow[at]);
    if shadow[at] { return None; }
    var tag := lower(nodes[at].name);
    ElementsCount(nodes, at);
    return Some(if tag == Ascii("input") || tag == Ascii("textarea") then FieldTarget(tag)
                else ContentsTarget(tag, contents[at], lengths[at] <= TEXT_LIMIT, elements[at]));
  }

  /** The targets of all documents: a later place overrides an earlier one with the same backend id. */
  method CollectTargets(lower: Text -> Text, documents: seq<seq<Node>>, editable: set<Backend>)
    returns (targets: map<Backend, Target>)
    ensures Collected(lower, documents, editable, targets, |documents|, 0)
  {
    targets := map[];
    for d := 0 to |documents|
      invariant Collected(lower, documents, editable, targets, d, 0)
    {
      var nodes := documents[d];
      var contents, lengths, elements, shadow := BackwardPass(nodes);
      for i := 0 to |nodes|
        invariant forall k :: 0 <= k < |nodes| ==> FinalAt(nodes, k, contents[k], lengths[k], elements[k], shadow[k])
        invariant Collected(lower, documents, editable, targets, d, i)
      {
        var target := Describe(lower, nodes, i, contents, lengths, elements, shadow);
        if nodes[i].backend in editable && target.Some? {
          CollectedAdds(lower, documents, editable, targets, d, i, target.value);
          targets := targets[nodes[i].backend := target.value];
        } else {
          CollectedSkips(lower, documents, editable, targets, d, i);
        }
      }
      CollectedTurns(lower, documents, editable, targets, d);
    }
  }
}
