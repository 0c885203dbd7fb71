/** The recording as the code keeps it: fields changed by append, put and seal, and the loops that verify it. */
module Recorder {
  import opened Text
  import opened Members
  import opened Options
  import opened Json
  import opened Recording

  class RecordingState {
    const codec: Codec
    var recordingId: Text
    var generation: Text
    var provider: Json
    var entries: seq<Sealed>
    var artifacts: seq<Keyed<Artifact>>
    var entriesSha256: Text
    var finalSha256: Text
    var complete: bool

    function View(): Data
      reads this
    {
      Data(recordingId, generation, provider, entries, artifacts, entriesSha256, finalSha256, complete)
    }

    constructor (codec: Codec, recordingId: Text, generation: Text, provider: Json)
      ensures View() == Create(recordingId, generation, provider) && this.codec == codec
    {
      this.codec := codec;
      this.recordingId, this.generation, this.provider := recordingId, generation, provider;
      entries, artifacts, entriesSha256, finalSha256, complete := [], [], ZERO_DIGEST, [], true;
    }

    /** `appendAutomationRecordingEntry`: false where it throws. */
    method Append(e: Entry) returns (ok: bool)
      modifies this`entries, this`entriesSha256
      ensures ok == AppendTo(codec, old(View()), e).Some?
      ensures View() == if ok then AppendTo(codec, old(View()), e).value else old(View())
    {
      if |entries| >= MAX_ENTRIES || !e.input.Obj? { return false; }
      var text := CanonicalText(EntryBody(e, |entries|, entriesSha256));
      if text.None? || Utf8Length(text.value) > MAX_ENTRY_BYTES { return false; }
      var sealed := Sealed(e, |entries|, entriesSha256, codec.textDigest(text.value));
      entries := entries + [sealed];
      entriesSha256 := sealed.sha256;
      return true;
    }

    /** `putAutomationRecordingArtifact`: false where it throws. */
    method Put(ref: Text, a: Artifact) returns (ok: bool)
      modifies this`artifacts
      ensures ok == PutInto(codec, old(View()), ref, a).Some?
      ensures View() == if ok then PutInto(codec, old(View()), ref, a).value else old(View())
    {
      if !RefShaped(ref) || !ArtifactValid(codec, a) { return false; }
      var prior := Find(artifacts, ref);
      if prior.Some? && !SameArtifact(prior.value, a) { return false; }
      artifacts := Assign(artifacts, ref, a);
      return true;
    }

    /** `sealAutomationRecording`: false where the digest cannot be taken. */
    method Seal() returns (ok: bool)
      modifies this`complete, this`finalSha256
      ensures ok == SealOf(codec, old(View())).Some?
      ensures ok ==> View() == SealOf(codec, old(View())).value
    {
      complete := NothingMissing(entries, artifacts);
      var marked := View();
      assert marked == Marked(old(View()));
      assert GlobalBody(marked) == GlobalBody(Marked(old(View())));
      var text := CanonicalText(GlobalBody(marked));
      if text.None? { return false; }
      finalSha256 := codec.textDigest(text.value);
      return true;
    }
  }

  // ---- assertJsonBounds: an explicit stack instead of recursion ----

  datatype Frame = Frame(value: Json, depth: nat)

  ghost function StackNodes(stack: seq<Frame>): nat {
    if stack == [] then 0 else StackNodes(stack[..|stack| - 1]) + Nodes(stack[|stack| - 1].value)
  }

  lemma {:induction false} StackConcat(a: seq<Frame>, b: seq<Frame>)
    ensures StackNodes(a + b) == StackNodes(a) + StackNodes(b)
    decreases |b|
  {
    if b == [] {
      assert a + b == a;
    } else {
      assert (a + b)[..|a + b| - 1] == a + b[..|b| - 1];
      StackConcat(a, b[..|b| - 1]);
    }
  }

  function ItemFrames(items: seq<Json>, depth: nat): (r: seq<Frame>)
    ensures |r| == |items| && forall i :: 0 <= i < |items| ==> r[i] == Frame(items[i], depth)
  {
    seq(|items|, i requires 0 <= i < |items| => Frame(items[i], depth))
  }

  function MemberFrames(members: seq<Keyed<Json>>, depth: nat): (r: seq<Frame>)
    ensures |r| == |members| && forall i :: 0 <= i < |members| ==> r[i] == Frame(members[i].value, depth)
  {
    seq(|members|, i requires 0 <= i < |members| => Frame(members[i].value, depth))
  }

  lemma {:induction false} ItemFrameNodes(items: seq<Json>, depth: nat)
    ensures StackNodes(ItemFrames(items, depth)) == ItemNodes(items)
  {
    if items != [] {
      ItemFrameNodes(items[1..], depth);
      assert ItemFrames(items, depth) == [Frame(items[0], depth)] + ItemFrames(items[1..], depth);
      StackConcat([Frame(items[0], depth)], ItemFrames(items[1..], depth));
      assert StackNodes([Frame(items[0], depth)]) == Nodes(items[0]);
    }
  }

  lemma {:induction false} MemberFrameNodes(members: seq<Keyed<Json>>, depth: nat)
    ensures StackNodes(MemberFrames(members, depth)) == MemberNodes(members)
  {
    if members != [] {
      MemberFrameNodes(members[1..], depth);
      var first := Frame(members[0].value, depth);
      assert MemberFrames(members, depth) == [first] + MemberFrames(members[1..], depth);
      StackConcat([first], MemberFrames(members[1..], depth));
      assert StackNodes([first]) == Nodes(members[0].value);
    }
  }

  /** The frames a value puts on the stack when it is taken off: its children, one level down. */
  function Expand(f: Frame): seq<Frame> {
    match f.value
    case Arr(items) => ItemFrames(items, f.depth + 1)
    case Obj(members) => MemberFrames(members, f.depth + 1)
    case _ => []
  }

  /** Every value still on the stack is within the depth limit from where it stands. */
  ghost predicate AllFit(stack: seq<Frame>) {
    forall i :: 0 <= i < |stack| ==> FrameFits(stack[i])
  }

  ghost predicate FrameFits(f: Frame) { Fits(f.value, MAX_DEPTH - f.depth) }

  lemma {:induction false} ExpandNodes(f: Frame)
    ensures StackNodes(Expand(f)) + 1 == Nodes(f.value)
  {
    match f.value
    case Arr(items) => ItemFrameNodes(items, f.depth + 1);
    case Obj(members) => MemberFrameNodes(members, f.depth + 1);
    case _ =>
  }

  lemma {:induction false} ExpandFits(f: Frame)
    requires f.depth <= MAX_DEPTH
    ensures FrameFits(f) <==> AllFit(Expand(f))
  {
    var limit, children := MAX_DEPTH - f.depth, Expand(f);
    assert AllFit(children) ==> forall i :: 0 <= i < |children| ==> FrameFits(children[i]);
    match f.value
    case Arr(items) =>
      assert forall i :: 0 <= i < |items| ==> FrameFits(children[i]) == Fits(items[i], limit - 1);
    case Obj(members) =>
      assert forall i :: 0 <= i < |members| ==> FrameFits(children[i]) == Fits(members[i].value, limit - 1);
    case _ =>
  }

  lemma {:induction false} AllFitConcat(a: seq<Frame>, b: seq<Frame>)
    ensures AllFit(a + b) <==> AllFit(a) && AllFit(b)
  {
    forall i | 0 <= i < |a| ensures (a + b)[i] == a[i] {}
    forall i | 0 <= i < |b| ensures (a + b)[|a| + i] == b[i] {}
  }

  /** Replacing a value by its children takes one node away and, once its own depth is allowed, neither gains nor loses
      a depth violation. */
  lemma {:induction false} StackStep(rest: seq<Frame>, current: Frame)
    ensures StackNodes(rest + [current]) == 1 + StackNodes(rest + Expand(current))
    ensures current.depth <= MAX_DEPTH ==> (AllFit(rest + [current]) <==> AllFit(rest + Expand(current)))
    ensures AllFit(rest + [current]) ==> current.depth <= MAX_DEPTH
  {
    ExpandNodes(current);
    StackConcat(rest, Expand(current));
    StackConcat(rest, [current]);
    assert StackNodes([current]) == Nodes(current.value);
    AllFitConcat(rest, [current]);
    AllFitConcat(rest, Expand(current));
    assert AllFit([current]) <==> FrameFits(current) by { assert [current][0] == current; }
    if current.depth <= MAX_DEPTH { ExpandFits(current); }
  }

  /** `assertJsonBounds`: the stack loop accepts exactly the values of bounded depth and bounded node count. */
  method CheckBounds(v: Json) returns (ok: bool)
    ensures ok == Bounded(v)
  {
    var stack := [Frame(v, 0)];
    var nodes := 0;
    assert StackNodes(stack) == Nodes(v) && (AllFit(stack) <==> Fits(v, MAX_DEPTH)) by {
      assert stack[0] == Frame(v, 0);
      assert FrameFits(stack[0]) == Fits(v, MAX_DEPTH);
    }
    while stack != []
      invariant nodes + StackNodes(stack) == Nodes(v)
      invariant nodes <= MAX_NODES
      invariant AllFit(stack) <==> Fits(v, MAX_DEPTH)
      decreases StackNodes(stack)
    {
      var current, rest := stack[|stack| - 1], stack[..|stack| - 1];
      assert stack == rest + [current];
      StackStep(rest, current);
      nodes := nodes + 1;
      if nodes > MAX_NODES || current.depth > MAX_DEPTH { return false; }
      stack := rest + Expand(current);
    }
    return true;
  }

  // ---- collectTerminalArtifactRefs: an explicit stack as well ----

  ghost function StackRefs(operation: Text, stack: seq<Frame>): set<Text> {
    set i, r | 0 <= i < |stack| && r in RefsIn(operation, stack[i].value) :: r
  }

  lemma {:induction false} ItemFrameRefs(operation: Text, items: seq<Json>, r: Text)
    ensures r in ItemRefs(operation, items) <==> exists i :: 0 <= i < |items| && r in RefsIn(operation, items[i])
  {
    if items != [] {
      ItemFrameRefs(operation, items[1..], r);
      if r in ItemRefs(operation, items[1..]) {
        var i :| 0 <= i < |items[1..]| && r in RefsIn(operation, items[1..][i]);
        assert items[i + 1] == items[1..][i];
      }
      if i :| 0 <= i < |items| && r in RefsIn(operation, items[i]) {
        assert i > 0 ==> items[1..][i - 1] == items[i];
      }
    }
  }

  lemma {:induction false} MemberFrameRefs(operation: Text, members: seq<Keyed<Json>>, r: Text)
    ensures r in MemberRefs(operation, members)
       <==> exists i :: 0 <= i < |members| && r in RefsIn(operation, members[i].value)
  {
    if members != [] {
      MemberFrameRefs(operation, members[1..], r);
      if r in MemberRefs(operation, members[1..]) {
        var i :| 0 <= i < |members[1..]| && r in RefsIn(operation, members[1..][i].value);
        assert members[i + 1] == members[1..][i];
      }
      if i :| 0 <= i < |members| && r in RefsIn(operation, members[i].value) {
        assert i > 0 ==> members[1..][i - 1] == members[i];
      }
    }
  }

  ghost function ChildRefs(operation: Text, v: Json): set<Text> {
    match v
    case Arr(items) => ItemRefs(operation, items)
    case Obj(members) => MemberRefs(operation, members)
    case _ => {}
  }

  lemma {:induction false} ExpandRefs(operation: Text, f: Frame)
    ensures StackRefs(operation, Expand(f)) == ChildRefs(operation, f.value)
  {
    match f.value
    case Arr(items) =>
      forall r ensures r in StackRefs(operation, Expand(f)) <==> r in ItemRefs(operation, items) {
        ItemFrameRefs(operation, items, r);
        assert forall i :: 0 <= i < |items| ==> Expand(f)[i].value == items[i];
      }
    case Obj(members) =>
      forall r ensures r in StackRefs(operation, Expand(f)) <==> r in MemberRefs(operation, members) {
        MemberFrameRefs(operation, members, r);
        assert forall i :: 0 <= i < |members| ==> Expand(f)[i].value == members[i].value;
      }
    case _ =>
  }

  lemma {:induction false} StackRefsConcat(operation: Text, a: seq<Frame>, b: seq<Frame>)
    ensures StackRefs(operation, a + b) == StackRefs(operation, a) + StackRefs(operation, b)
  {
    forall i | 0 <= i < |a| ensures (a + b)[i] == a[i] {}
    forall i | 0 <= i < |b| ensures (a + b)[|a| + i] == b[i] {}
  }

  /** Replacing a value by its children keeps every reference but its own. */
  lemma {:induction false} StackRefsStep(operation: Text, rest: seq<Frame>, current: Frame)
    ensures StackRefs(operation, rest + [current])
         == StackRefs(operation, rest + Expand(current))
            + if current.value.Obj? then Own(NamedRef(operation, current.value.members)) else {}
  {
    StackRefsConcat(operation, rest, [current]);
    assert StackRefs(operation, [current]) == RefsIn(operation, current.value) by {
      assert [current][0] == current;
    }
    ExpandRefs(operation, current);
    StackRefsConcat(operation, rest, Expand(current));
  }

  /** `collectTerminalArtifactRefs`: the stack loop finds exactly the references named anywhere in the terminal. */
  method CollectRefs(operation: Text, t: Terminal) returns (refs: set<Text>)
    ensures refs == Discovered(operation, t)
  {
    if t.Failed? { return {}; }
    refs := {};
    var stack := [Frame(t.output, 0)];
    assert StackRefs(operation, stack) == RefsIn(operation, t.output) by {
      assert stack[0].value == t.output;
    }
    while stack != []
      invariant refs + StackRefs(operation, stack) == RefsIn(operation, t.output)
      decreases StackNodes(stack)
    {
      var current, rest := stack[|stack| - 1], stack[..|stack| - 1];
      assert stack == rest + [current];
      StackStep(rest, current);
      StackRefsStep(operation, rest, current);
      if current.value.Obj? { refs := refs + Own(NamedRef(operation, current.value.members)); }
      stack := rest + Expand(current);
    }
  }

  // ---- verifyAutomationRecording ----

  /** Refuses unless the entry's own fields agree and its artifact references are the ones its terminal names. */
  method CheckEntry(e: Entry) returns (ok: bool)
    ensures ok == Coherent(e)
  {
    var discovered := CollectRefs(e.operation, e.terminal);
    ok := e.input.Obj? && SoundRetry(e.terminal)
      && NoRepeat(e.inlineArtifacts) && NoRepeat(e.artifactRefs)
      && (forall i :: 0 <= i < |e.inlineArtifacts| ==> e.inlineArtifacts[i] in e.artifactRefs)
      && (set r | r in e.artifactRefs) == discovered;
  }

  /** The entry's digest is recomputed from its body and the digest before it. */
  method CheckLink(c: Codec, s: Sealed, sequence: nat, previous: Text) returns (ok: bool)
    ensures ok == Linked(c, s, sequence, previous)
  {
    var text := CanonicalText(EntryBody(s.entry, sequence, previous));
    ok := text.Some? && Utf8Length(text.value) <= MAX_ENTRY_BYTES
      && s.sequence == sequence && s.previous == previous && s.sha256 == c.textDigest(text.value);
  }

  /** One entry passes: its fields agree, its digest is linked to the one before, and has the form of a digest. */
  ghost predicate EntryPasses(c: Codec, entries: seq<Sealed>, k: nat)
    requires k < |entries|
  {
    && Coherent(entries[k].entry) && DigestShaped(entries[k].sha256)
    && Linked(c, entries[k], k, PreviousDigest(entries, k))
  }

  lemma {:induction false} AllPass(c: Codec, entries: seq<Sealed>)
    ensures (Chain(c, entries) && AllCoherent(entries) && AllShaped(entries))
      <==> forall k :: 0 <= k < |entries| ==> EntryPasses(c, entries, k)
  {
    if forall k :: 0 <= k < |entries| ==> EntryPasses(c, entries, k) {
      forall k | 0 <= k < |entries|
        ensures Coherent(entries[k].entry) && DigestShaped(entries[k].sha256)
        ensures Linked(c, entries[k], k, PreviousDigest(entries, k))
      {
        assert EntryPasses(c, entries, k);
      }
    }
  }

  method CheckOne(c: Codec, entries: seq<Sealed>, i: nat, previous: Text) returns (ok: bool)
    requires i < |entries| && previous == PreviousDigest(entries, i)
    ensures ok == EntryPasses(c, entries, i)
  {
    var s := entries[i];
    var coherent := CheckEntry(s.entry);
    var linked := CheckLink(c, s, i, previous);
    ok := coherent && linked && DigestShaped(s.sha256);
  }

  function OwnRefs(e: Entry): set<Text> {
    var own := e.artifactRefs;
    set r | r in own
  }

  /** Every reference the first entries name. */
  function RefsOf(entries: seq<Sealed>, count: nat): set<Text>
    requires count <= |entries|
  {
    if count == 0 then {}
    else
      RefsOf(entries, count - 1) + OwnRefs(entries[count - 1].entry)
  }

  lemma {:induction false} RefsOfMeans(entries: seq<Sealed>, count: nat, r: Text)
    requires count <= |entries|
    ensures r in RefsOf(entries, count) <==> exists i :: 0 <= i < count && r in entries[i].entry.artifactRefs
  {
    if count > 0 { RefsOfMeans(entries, count - 1, r); }
  }

  /** The whole chain is accepted exactly when it is coherent and linked; every reference it names is gathered. */
  method CheckEntries(c: Codec, entries: seq<Sealed>) returns (ok: bool, last: Text, refs: set<Text>)
    ensures ok == (Chain(c, entries) && AllCoherent(entries) && AllShaped(entries))
    ensures ok ==> last == PreviousDigest(entries, |entries|)
    ensures ok ==> refs == RefsOf(entries, |entries|)
  {
    ok, last, refs := WalkEntries(c, entries);
    AllPass(c, entries);
  }

  /** The loop over the entries: the digest so far, and every reference named so far. */
  method WalkEntries(c: Codec, entries: seq<Sealed>) returns (ok: bool, last: Text, refs: set<Text>)
    ensures ok <==> forall k :: 0 <= k < |entries| ==> EntryPasses(c, entries, k)
    ensures ok ==> last == PreviousDigest(entries, |entries|) && refs == RefsOf(entries, |entries|)
  {
    last, refs := ZERO_DIGEST, {};
    for i := 0 to |entries|
      invariant forall k :: 0 <= k < i ==> EntryPasses(c, entries, k)
      invariant last == PreviousDigest(entries, i) && refs == RefsOf(entries, i)
    {
      ok := CheckOne(c, entries, i, last);
      if !ok { return; }
      refs := refs + OwnRefs(entries[i].entry);
      last := entries[i].sha256;
    }
    ok := true;
  }

  method CheckArtifacts(c: Codec, table: seq<Keyed<Artifact>>) returns (ok: bool)
    ensures ok == (AllValid(c, table) && TotalBytes(table) <= MAX_TOTAL_ARTIFACT_BYTES)
  {
    var total := 0;
    for i := 0 to |table|
      invariant total + TotalBytes(table[i..]) == TotalBytes(table)
      invariant forall k :: 0 <= k < i ==> ArtifactValid(c, table[k].value)
    {
      if !ArtifactValid(c, table[i].value) { return false; }
      total := total + table[i].value.byteLength;
      assert table[i..][1..] == table[i + 1..];
    }
    ok := total <= MAX_TOTAL_ARTIFACT_BYTES;
  }

  method CheckMissing(entries: seq<Sealed>, table: seq<Keyed<Artifact>>, refs: set<Text>) returns (none: bool)
    requires refs == RefsOf(entries, |entries|)
    ensures none == NothingMissing(entries, table)
  {
    forall r: Text
      ensures r in refs <==> exists i :: 0 <= i < |entries| && r in entries[i].entry.artifactRefs
    {
      RefsOfMeans(entries, |entries|, r);
    }
    var missing := set r | r in refs && !HasRef(table, r);
    none := missing == {};
    if none {
      forall i, ref | 0 <= i < |entries| && ref in entries[i].entry.artifactRefs ensures HasRef(table, ref) {
        assert ref in refs && ref !in missing;
      }
    }
  }

  /** The chain of entries and the artifact table, without the envelope and the final digest. */
  method CheckContents(c: Codec, d: Data) returns (ok: bool, refs: set<Text>)
    ensures ok == (&& Chain(c, d.entries) && AllCoherent(d.entries) && AllShaped(d.entries)
                   && d.entriesSha256 == PreviousDigest(d.entries, |d.entries|)
                   && AllValid(c, d.artifacts) && TotalBytes(d.artifacts) <= MAX_TOTAL_ARTIFACT_BYTES)
    ensures ok ==> refs == RefsOf(d.entries, |d.entries|)
  {
    var entries, last, named := CheckEntries(c, d.entries);
    if !entries || d.entriesSha256 != last { return false, {}; }
    ok := CheckArtifacts(c, d.artifacts);
    refs := named;
  }

  method CheckFinal(c: Codec, d: Data) returns (ok: bool)
    ensures ok == (DigestShaped(d.finalSha256) && FinalDigest(c, d) == Some(d.finalSha256))
  {
    var text := CanonicalText(GlobalBody(d));
    ok := DigestShaped(d.finalSha256) && text.Some? && c.textDigest(text.value) == d.finalSha256;
  }

  method CheckEnvelope(d: Data) returns (ok: bool)
    ensures ok == (Enveloped(d) && Bounded(RecordingJson(d)))
  {
    ok := CheckBounds(RecordingJson(d));
    ok := ok && Enveloped(d);
  }

  /** `verifyAutomationRecording`: accepts exactly the recordings that verify. */
  method Verify(c: Codec, d: Data, requireComplete: bool) returns (ok: bool)
    ensures ok == Verifies(c, d, requireComplete)
  {
    var enveloped := CheckEnvelope(d);
    if !enveloped || |d.entries| > MAX_ENTRIES { return false; }
    var contents, refs := CheckContents(c, d);
    if !contents { return false; }
    var complete := CheckMissing(d.entries, d.artifacts, refs);
    if requireComplete && (!d.complete || !complete) { return false; }
    ok := CheckFinal(c, d);
  }
}
