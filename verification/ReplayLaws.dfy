/** Record, then replay: the replay answers as the provider did, in the same order, and nothing else moves its cursor.
    */
module ReplayLaws {
  import opened Text
  import opened Members
  import opened Options
  import opened Json
  import opened JsonLaws
  import opened Recording
  import opened RecordingLaws
  import opened Artifacts
  import opened ArtifactStore
  import opened Collector
  import opened RecordReplay

  type Contents = map<Text, Bytes>

  /** Each artifact reference names one fixed run of bytes, under a well-formed reference. */
  ghost predicate Named(content: Contents) { forall ref :: ref in content ==> RefShaped(ref) }

  function FullVault(c: Codec, content: Contents, operation: Text, v: Json): Vault {
    Vault(operation, (set r | r in InlineRefs(v)), content, c.encode)
  }

  /** A provider answer whose artifact objects carry the bytes their references name: every object the replay would
      refill carried those bytes, no object lost any, and an `artifact.read` answer is one chunk of the artifact. */
  ghost predicate Faithful(c: Codec, content: Contents, call: Call) {
    && Regular(call.input)
    && match call.response
       case Failure(e) => e.details.Some? ==> Regular(e.details.value)
       case Output(v) =>
         && Regular(v) && Returns(FullVault(c, content, call.operation, v), v)
         && (call.operation == ARTIFACT_READ ==>
               && InlineRefs(v) == []
               && (ChunkOf(v).Some? ==> LengthStated(content, ChunkOf(v).value)))
  }

  ghost predicate LengthStated(content: Contents, r: ChunkRead) {
    r.artifactRef in content && r.byteLength == |content[r.artifactRef]|
  }

  // ---- The table holds exactly the named bytes ----

  ghost predicate Holds(c: Codec, content: Contents, ref: Text, a: Artifact) {
    ref in content && a.source == Inline(c.encode(content[ref]))
  }

  ghost predicate TableHolds(c: Codec, content: Contents, table: seq<Keyed<Artifact>>) {
    forall m :: m in table ==> Holds(c, content, m.key, m.value)
  }

  lemma {:induction false} PutHolds(c: Codec, content: Contents, d: Data, ref: Text, a: Artifact)
    requires TableHolds(c, content, d.artifacts) && Distinct(d.artifacts)
    requires PutInto(c, d, ref, a).Some? && Holds(c, content, ref, a)
    ensures TableHolds(c, content, PutInto(c, d, ref, a).value.artifacts)
    ensures Distinct(PutInto(c, d, ref, a).value.artifacts)
    ensures PutInto(c, d, ref, a).value.entries == d.entries
  {
    AssignDistinct(d.artifacts, ref, a);
  }

  lemma {:induction false} PutAllHolds(c: Codec, content: Contents, d: Data, artifacts: seq<Keyed<Artifact>>)
    requires TableHolds(c, content, d.artifacts) && Distinct(d.artifacts)
    requires PutAll(c, d, artifacts).Some? && TableHolds(c, content, artifacts)
    ensures TableHolds(c, content, PutAll(c, d, artifacts).value.artifacts)
    ensures Distinct(PutAll(c, d, artifacts).value.artifacts)
    ensures PutAll(c, d, artifacts).value.entries == d.entries
    decreases |artifacts|
  {
    if artifacts != [] {
      assert artifacts[0] in artifacts;
      PutHolds(c, content, d, artifacts[0].key, artifacts[0].value);
      PutAllHolds(c, content, PutInto(c, d, artifacts[0].key, artifacts[0].value).value, artifacts[1..]);
    }
  }

  lemma {:induction false} BytesOfTable(c: Codec, content: Contents, table: seq<Keyed<Artifact>>)
    requires Lawful(c) && TableHolds(c, content, table)
    ensures TableBytes(c, table).Keys == Keys(table)
    ensures forall ref :: ref in TableBytes(c, table) ==> ref in content && TableBytes(c, table)[ref] == content[ref]
  {
    if table != [] {
      var rest := table[1..];
      assert table == [table[0]] + rest;
      assert table[0] in table;
      BytesOfTable(c, content, rest);
      forall k ensures k in Keys(table) <==> k == table[0].key || k in Keys(rest) {
        if k in Keys(table) {
          var m :| m in table && m.key == k;
          assert m == table[0] || m in rest;
        }
        if k in Keys(rest) {
          var m :| m in rest && m.key == k;
          assert m in table;
        }
      }
    }
  }

  // ---- What an output carries ----

  lemma {:induction false} CarriedHolds(c: Codec, k: Vault, v: Json)
    requires Returns(k, v) && k.encode == c.encode && forall r :: r in InlineRefs(v) ==> r in k.inlined
    ensures TableHolds(c, k.bytes, Carried(v))
    decreases v
  {
    match v
    case Arr(items) => ItemsCarriedHold(c, k, items);
    case Obj(members) => MembersCarriedHold(c, k, members, members);
    case _ =>
  }

  lemma {:induction false} ItemsCarriedHold(c: Codec, k: Vault, items: seq<Json>)
    requires (forall i :: 0 <= i < |items| ==> Returns(k, items[i])) && k.encode == c.encode
    requires forall r :: r in ItemInlineRefs(items) ==> r in k.inlined
    ensures TableHolds(c, k.bytes, ItemsCarried(items))
    decreases items
  {
    if items != [] {
      CarriedHolds(c, k, items[0]);
      ItemsCarriedHold(c, k, items[1..]);
    }
  }

  lemma {:induction false} MembersCarriedHold(c: Codec, k: Vault, rest: seq<Keyed<Json>>, all: seq<Keyed<Json>>)
    requires OwnBytesReturn(k, all) && k.encode == c.encode
    requires forall i :: 0 <= i < |rest| ==> Returns(k, rest[i].value)
    requires forall r :: r in MemberInlineRefs(rest, all) ==> r in k.inlined
    ensures TableHolds(c, k.bytes, MembersCarried(rest, all))
    decreases rest
  {
    if rest != [] {
      if Drops(all) && rest[0].key == DATA {
        if Screenshot(all) {
          var ref := Find(all, ARTIFACT_REF).value.s;
          assert ref in MemberInlineRefs(rest, all);
          assert Holds(c, k.bytes, ref, Described(all));
        }
      } else {
        CarriedHolds(c, k, rest[0].value);
      }
      MembersCarriedHold(c, k, rest[1..], all);
    }
  }

  lemma {:induction false} InlineIsCopied(v: Json)
    ensures forall r :: r in InlineRefs(v) ==> r in CopiedRefs(v)
    decreases v
  {
    match v
    case Arr(items) => ItemsInlineCopied(items);
    case Obj(members) => MembersInlineCopied(members, members);
    case _ =>
  }

  lemma {:induction false} ItemsInlineCopied(items: seq<Json>)
    ensures forall r :: r in ItemInlineRefs(items) ==> r in ItemCopiedRefs(items)
    decreases items
  {
    if items != [] {
      InlineIsCopied(items[0]);
      ItemsInlineCopied(items[1..]);
    }
  }

  lemma {:induction false} MembersInlineCopied(rest: seq<Keyed<Json>>, all: seq<Keyed<Json>>)
    ensures forall r :: r in MemberInlineRefs(rest, all) ==>
      r in MemberCopiedRefs(rest, Drops(all)) || (Screenshot(all) && r == Find(all, ARTIFACT_REF).value.s)
    decreases rest
  {
    if rest != [] {
      if !(Drops(all) && rest[0].key == DATA) { InlineIsCopied(rest[0].value); }
      MembersInlineCopied(rest[1..], all);
    }
  }

  /** A smaller table serves as well as a larger one for an output all of whose references it has. */
  lemma {:induction false} SmallerTableServes(k: Vault, t: Vault, v: Json)
    requires Regular(v) && Returns(k, v)
    requires t.operation == k.operation && t.inlined == k.inlined && t.encode == k.encode
    requires forall r :: r in t.bytes ==> r in k.bytes && t.bytes[r] == k.bytes[r]
    requires forall r :: r in k.bytes ==> RefShaped(r)
    requires (forall r :: r in k.inlined ==> r in t.bytes) && forall r :: r in CopiedRefs(v) ==> r in t.bytes
    ensures Returns(t, v)
    decreases v
  {
    match v
    case Arr(items) =>
      forall i | 0 <= i < |items| ensures Returns(t, items[i]) {
        ItemCopied(items, i);
        SmallerTableServes(k, t, items[i]);
      }
    case Obj(members) =>
      assert OwnBytesReturn(t, members) by {
        if !Inlines(k, members) && Reads(k, members) {
          assert Chunk(members);
          assert Find(members, ARTIFACT_REF).value.s in CopiedRefs(v);
        }
      }
      forall i | 0 <= i < |members| ensures Returns(t, members[i].value) {
        if Drops(members) && members[i].key == DATA {
          FindsAt(members, i);
        } else {
          MemberCopied(members, Drops(members), i);
          SmallerTableServes(k, t, members[i].value);
        }
      }
    case _ =>
  }

  lemma {:induction false} ItemCopied(items: seq<Json>, i: nat)
    requires i < |items|
    ensures forall r :: r in CopiedRefs(items[i]) ==> r in ItemCopiedRefs(items)
  {
    if i > 0 { ItemCopied(items[1..], i - 1); }
  }

  lemma {:induction false} MemberCopied(members: seq<Keyed<Json>>, drop: bool, i: nat)
    requires i < |members| && !(drop && members[i].key == DATA)
    ensures forall r :: r in CopiedRefs(members[i].value) ==> r in MemberCopiedRefs(members, drop)
  {
    if i > 0 { MemberCopied(members[1..], drop, i - 1); }
  }

  // ---- What is being collected ----

  ghost predicate PartialHolds(content: Contents, ref: Text, p: Partial) {
    && ref in content && 0 <= p.nextOffset <= |content[ref]|
    && p.byteLength == |content[ref]| && Concat(p.chunks) == content[ref][..p.nextOffset]
  }

  ghost predicate PendingHolds(content: Contents, st: Pending) {
    Distinct(st.partials) && forall m :: m in st.partials ==> PartialHolds(content, m.key, m.value)
  }

  /** The chunk is a run of the named bytes, as long as it says. */
  ghost predicate ChunkHolds(c: Codec, content: Contents, r: ChunkRead) {
    && LengthStated(content, r)
    && 0 <= r.offset <= r.nextOffset <= |content[r.artifactRef]|
    && r.data == c.encode(content[r.artifactRef][r.offset..r.nextOffset])
  }

  lemma {:induction false} ContinuedHolds(content: Contents, st: Pending, r: ChunkRead)
    requires PendingHolds(content, st) && LengthStated(content, r)
    ensures PartialHolds(content, r.artifactRef, Continued(st, r))
  {
    var prior := Find(st.partials, r.artifactRef);
    if prior.Some? {
      var i := FoundIndex(st.partials, r.artifactRef);
      assert st.partials[i] in st.partials;
    }
  }

  lemma {:induction false} ExtendedHolds(c: Codec, content: Contents, p: Partial, r: ChunkRead)
    requires Lawful(c) && PartialHolds(content, r.artifactRef, p) && ChunkHolds(c, content, r)
    requires r.offset == p.nextOffset
    ensures PartialHolds(content, r.artifactRef, Extended(c, p, r))
    ensures Extended(c, p, r).nextOffset == r.nextOffset
  {
    var bytes := content[r.artifactRef];
    var chunk := bytes[r.offset..r.nextOffset];
    assert c.decode(r.data) == chunk;
    var chunks := p.chunks + [chunk];
    assert chunks[..|chunks| - 1] == p.chunks;
    assert bytes[..p.nextOffset] + chunk == bytes[..r.nextOffset];
  }

  lemma {:induction false} CollectHolds(c: Codec, content: Contents, st: Pending, d: Data, r: ChunkRead)
    requires Lawful(c) && PendingHolds(content, st) && ChunkHolds(c, content, r)
    requires TableHolds(c, content, d.artifacts) && Distinct(d.artifacts)
    requires Collect(c, st, d, r).Some?
    ensures var (next, after) := Collect(c, st, d, r).value;
      && PendingHolds(content, next) && TableHolds(c, content, after.artifacts) && Distinct(after.artifacts)
      && after.entries == d.entries
  {
    var ref := r.artifactRef;
    var p := Extended(c, Continued(st, r), r);
    ContinuedHolds(content, st, r);
    ExtendedHolds(c, content, Continued(st, r), r);
    AssignDistinct(st.partials, ref, p);
    var partials := Assign(st.partials, ref, p);
    assert PendingHolds(content, Pending(partials, 0));
    if r.eof {
      EraseDistinct(partials, ref);
      var whole := Concat(p.chunks);
      assert whole == content[ref];
      PutHolds(c, content, d, ref, Rebuilt(c, r, whole));
    }
  }

  // ---- One recorded operation ----

  ghost predicate SpaceHolds(c: Codec, content: Contents, s: Space) {
    PendingHolds(content, s.pending) && TableHolds(c, content, s.data.artifacts) && Distinct(s.data.artifacts)
  }

  lemma {:induction false} OutputChunkHolds(c: Codec, content: Contents, v: Json)
    requires Lawful(c) && InlineRefs(v) == [] && ChunkOf(v).Some? && LengthStated(content, ChunkOf(v).value)
    requires Returns(FullVault(c, content, ARTIFACT_READ, v), v)
    requires ChunkOf(v).value.nextOffset == ChunkOf(v).value.offset + |c.decode(ChunkOf(v).value.data)|
    ensures ChunkHolds(c, content, ChunkOf(v).value)
  {
    var k := FullVault(c, content, ARTIFACT_READ, v);
    assert k.inlined == {};
    assert Reads(k, v.members);
  }

  /** The table and what is being collected still hold the named bytes once a call is prepared. */
  lemma {:induction false} PrepareHolds(c: Codec, content: Contents, s: Space, call: Call)
    requires Lawful(c) && SpaceHolds(c, content, s) && Faithful(c, content, call)
    requires Prepare(c, s, call).Some?
    ensures SpaceHolds(c, content, Prepare(c, s, call).value)
  {
    if call.response.Output? {
      var v := call.response.value;
      if call.operation == ARTIFACT_READ {
        var chunk := ChunkOf(v).value;
        assert Takes(c, s.pending, chunk);
        OutputChunkHolds(c, content, v);
        CollectHolds(c, content, s.pending, s.data, chunk);
      }
      var collected := CollectOutput(c, s, call.operation, v).value;
      CarriedHolds(c, FullVault(c, content, call.operation, v), v);
      PutAllHolds(c, content, collected.data, Carried(v));
    }
  }

  lemma {:induction false} StepHolds(c: Codec, content: Contents, s: Space, call: Call, n: Space)
    requires Lawful(c) && SpaceHolds(c, content, s) && Faithful(c, content, call)
    requires RecordStep(c, s, call) == Some(n)
    ensures SpaceHolds(c, content, n)
  {
    PrepareHolds(c, content, s, call);
    PersistedFields(c, Prepare(c, s, call).value.data);
  }

  // ---- Entries grow by one for each call, whatever it carries ----

  /** The entries grew by one for each call, in order, and the old ones stand. */
  ghost predicate Grown(before: seq<Sealed>, after: seq<Sealed>, calls: seq<Call>) {
    && |after| == |before| + |calls| && after[..|before|] == before
    && forall i :: 0 <= i < |calls| ==> after[|before| + i].entry == EntryOf(calls[i])
  }

  lemma {:induction false} GrownByNone(a: seq<Sealed>, calls: seq<Call>)
    requires calls == []
    ensures Grown(a, a, calls)
  {}

  lemma {:induction false} GrownTwice(a: seq<Sealed>, b: seq<Sealed>, c: seq<Sealed>, calls: seq<Call>)
    requires calls != [] && Grown(a, b, [calls[0]]) && Grown(b, c, calls[1..])
    ensures Grown(a, c, calls)
  {
    assert c[..|a|] == c[..|b|][..|a|];
    forall i | 0 <= i < |calls| ensures c[|a| + i].entry == EntryOf(calls[i]) {
      if i == 0 {
        assert c[..|b|][|a|] == b[|a| + 0] && b[|a| + 0].entry == EntryOf([calls[0]][0]);
      } else {
        assert calls[1..][i - 1] == calls[i];
      }
    }
  }

  lemma {:induction false} PutAllKeeps(c: Codec, d: Data, artifacts: seq<Keyed<Artifact>>)
    requires PutAll(c, d, artifacts).Some?
    ensures PutAll(c, d, artifacts).value.entries == d.entries
    decreases |artifacts|
  {
    if artifacts != [] {
      PutAllKeeps(c, PutInto(c, d, artifacts[0].key, artifacts[0].value).value, artifacts[1..]);
    }
  }

  lemma {:induction false} AppendGrows(c: Codec, d: Data, call: Call)
    requires AppendTo(c, d, EntryOf(call)).Some?
    ensures Grown(d.entries, AppendTo(c, d, EntryOf(call)).value.entries, [call])
  {
  }

  lemma {:induction false} PrepareGrows(c: Codec, s: Space, call: Call)
    requires Prepare(c, s, call).Some?
    ensures Grown(s.data.entries, Prepare(c, s, call).value.data.entries, [call])
  {
    match call.response
    case Failure(_) => AppendGrows(c, s.data, call);
    case Output(v) =>
      var collected := CollectOutput(c, s, call.operation, v).value;
      PutAllKeeps(c, collected.data, Carried(v));
      AppendGrows(c, PutAll(c, collected.data, Carried(v)).value, call);
  }

  lemma {:induction false} PersistedFields(c: Codec, d: Data)
    requires Persisted(c, d).Some?
    ensures var w := Persisted(c, d).value;
      w.entries == d.entries && w.artifacts == d.artifacts && Chain(c, w.entries)
  {
  }

  lemma {:induction false} StepGrows(c: Codec, s: Space, call: Call, n: Space)
    requires RecordStep(c, s, call) == Some(n)
    ensures Grown(s.data.entries, n.data.entries, [call]) && Chain(c, n.data.entries)
  {
    PrepareGrows(c, s, call);
    PersistedFields(c, Prepare(c, s, call).value.data);
  }

  /** The spaces a run goes through, one call at a time. */
  lemma {:induction false} FirstStep(c: Codec, s: Space, calls: seq<Call>, n: Space) returns (next: Space)
    requires calls != [] && RecordAll(c, s, calls) == Some(n)
    ensures RecordStep(c, s, calls[0]) == Some(next) && RecordAll(c, next, calls[1..]) == Some(n)
  {
    next := RecordStep(c, s, calls[0]).value;
  }

  /** Over any run each committed operation adds exactly its own entry, and the entries stay a chain. */
  lemma {:induction false} RunGrows(c: Codec, s: Space, calls: seq<Call>, n: Space)
    requires Chain(c, s.data.entries) && RecordAll(c, s, calls) == Some(n)
    ensures Grown(s.data.entries, n.data.entries, calls) && Chain(c, n.data.entries)
    decreases |calls|
  {
    if calls == [] {
      GrownByNone(s.data.entries, calls);
    } else {
      var next := FirstStep(c, s, calls, n);
      StepGrows(c, s, calls[0], next);
      RunGrows(c, next, calls[1..], n);
      GrownTwice(s.data.entries, next.data.entries, n.data.entries, calls);
    }
  }

  ghost predicate AllFaithful(c: Codec, content: Contents, calls: seq<Call>) {
    forall i :: 0 <= i < |calls| ==> Faithful(c, content, calls[i])
  }

  lemma {:induction false} FirstFaithful(c: Codec, content: Contents, calls: seq<Call>)
    requires calls != [] && AllFaithful(c, content, calls)
    ensures Faithful(c, content, calls[0]) && AllFaithful(c, content, calls[1..])
  {
  }

  lemma {:induction false} RunHolds(c: Codec, content: Contents, s: Space, calls: seq<Call>, n: Space)
    requires Lawful(c) && SpaceHolds(c, content, s) && Chain(c, s.data.entries)
    requires AllFaithful(c, content, calls) && RecordAll(c, s, calls) == Some(n)
    ensures SpaceHolds(c, content, n) && Chain(c, n.data.entries)
    ensures Grown(s.data.entries, n.data.entries, calls)
    decreases |calls|
  {
    RunGrows(c, s, calls, n);
    if calls != [] {
      var next := FirstStep(c, s, calls, n);
      FirstFaithful(c, content, calls);
      StepHolds(c, content, s, calls[0], next);
      StepGrows(c, s, calls[0], next);
      RunHolds(c, content, next, calls[1..], n);
    }
  }

  // ---- Replaying it ----

  lemma {:induction false} FitsMore(v: Json, a: int, b: int)
    requires Fits(v, a) && a <= b
    ensures Fits(v, b)
    decreases v
  {
    match v
    case Arr(items) =>
      forall i | 0 <= i < |items| ensures Fits(items[i], b - 1) {
        FitsMore(items[i], a - 1, b - 1);
      }
    case Obj(members) =>
      forall i | 0 <= i < |members| ensures Fits(members[i].value, b - 1) {
        FitsMore(members[i].value, a - 1, b - 1);
      }
    case _ =>
  }

  /** A member of an object that prints also prints on its own. */
  lemma {:induction false} MemberPrints(members: seq<Keyed<Json>>, i: nat)
    requires i < |members| && CanonicalText(Obj(members)).Some?
    ensures CanonicalText(members[i].value).Some?
  {
    CanonicalPrintsNormal(Obj(members), 0);
    FitsMore(members[i].value, MAX_DEPTH - 1, MAX_DEPTH);
    CanonicalPrintsNormal(members[i].value, 0);
  }

  /** The input of an entry that is in the chain prints on its own. */
  lemma {:induction false} ChainedInputPrints(c: Codec, entries: seq<Sealed>, i: nat)
    requires i < |entries| && Chain(c, entries)
    ensures CanonicalText(entries[i].entry.input).Some?
  {
    var e := entries[i].entry;
    assert Linked(c, entries[i], i, PreviousDigest(entries, i));
    var fields := BodyFields(e, i, PreviousDigest(entries, i));
    assert fields[3].value == e.input;
    MemberPrints(fields, 3);
  }

  lemma {:induction false} SameInputsMatch(c: Codec, v: Json, w: Json)
    requires Regular(v) && Regular(w) && Same(v, w) && CanonicalText(w).Some?
    ensures InputDigest(c, v).Some? && InputDigest(c, v) == InputDigest(c, w)
  {
    SameMeansEqualText(v, w);
  }

  /** What the provider answered, and what the replay answers, are the same to a caller. */
  ghost predicate Matches(r: Response, a: Answer) {
    match (r, a)
    case (Output(v), Returned(w)) => Same(w, v)
    case (Failure(e), Threw(t)) => CanonicalError(t) == CanonicalError(e)
    case _ => false
  }

  lemma {:induction false} OutputReplays(c: Codec, content: Contents, d: Data, call: Call, e: Entry)
    requires Lawful(c) && Named(content) && Faithful(c, content, call) && call.response.Output? && e == EntryOf(call)
    requires TableHolds(c, content, d.artifacts)
    requires forall r :: r in e.artifactRefs ==> HasRef(d.artifacts, r)
    ensures Survives(VaultOf(c, d, e), call.response.value)
  {
    var v := call.response.value;
    var k, t := FullVault(c, content, call.operation, v), VaultOf(c, d, e);
    assert k.inlined == t.inlined;
    BytesOfTable(c, content, d.artifacts);
    InlineIsCopied(v);
    forall r | r in CopiedRefs(v) ensures r in t.bytes {
      assert r in e.artifactRefs;
      var i :| 0 <= i < |d.artifacts| && d.artifacts[i].key == r;
      assert d.artifacts[i] in d.artifacts;
      assert r in Keys(d.artifacts);
    }
    SmallerTableServes(k, t, v);
    SurvivesExactly(t, v);
  }

  /** A complete recording whose i-th entry is that of the i-th call, and whose table holds the named bytes. */
  ghost predicate Recorded(c: Codec, content: Contents, calls: seq<Call>, d: Data) {
    && Grown([], d.entries, calls) && TableHolds(c, content, d.artifacts) && Chain(c, d.entries)
    && NothingMissing(d.entries, d.artifacts)
  }

  lemma {:induction false} RunRecords(c: Codec, content: Contents, recordingId: Text, generation: Text, provider: Json,
                                      calls: seq<Call>, s: Space)
    requires Lawful(c) && AllFaithful(c, content, calls)
    requires RecordAll(c, Fresh(recordingId, generation, provider), calls) == Some(s)
    requires NothingMissing(s.data.entries, s.data.artifacts)
    ensures Recorded(c, content, calls, s.data)
  {
    RunHolds(c, content, Fresh(recordingId, generation, provider), calls, s);
  }

  lemma {:induction false} EntryReplays(c: Codec, content: Contents, calls: seq<Call>, d: Data, i: nat, input: Json)
    requires Lawful(c) && Named(content) && Recorded(c, content, calls, d)
    requires i < |calls| && Faithful(c, content, calls[i]) && Regular(input) && Same(input, calls[i].input)
    ensures var step := ReplayStep(c, d, i, calls[i].operation, input);
      step.Answered? && step.cursor == i + 1 && Matches(calls[i].response, step.answer)
  {
    var e := d.entries[i].entry;
    assert e == EntryOf(calls[i]) by { ghost var none: seq<Sealed> := []; assert |none| + i == i; }
    ChainedInputPrints(c, d.entries, i);
    SameInputsMatch(c, input, e.input);
    if calls[i].response.Output? {
      OutputReplays(c, content, d, calls[i], e);
    } else {
      ErrorsReplay(calls[i].response.error);
    }
  }

  /** Record, then replay: after a committed run whose recording is complete, feeding the i-th recorded operation with
      its input, keys in any order, at cursor i answers as the provider answered (the same output up to key order, or
      the same canonical error) and moves the cursor to the next operation; past the last one the replay is
      exhausted. */
  lemma {:induction false} ReplayRefinesRun(c: Codec, content: Contents, recordingId: Text, generation: Text,
                                            provider: Json,
                                            calls: seq<Call>, s: Space, i: nat, input: Json)
    requires Lawful(c) && Named(content)
    requires AllFaithful(c, content, calls)
    requires RecordAll(c, Fresh(recordingId, generation, provider), calls) == Some(s)
    requires NothingMissing(s.data.entries, s.data.artifacts)
    requires Regular(input)
    ensures i < |calls| && Same(input, calls[i].input) ==>
      var step := ReplayStep(c, s.data, i, calls[i].operation, input);
      step.Answered? && step.cursor == i + 1 && Matches(calls[i].response, step.answer)
    ensures i >= |calls| ==> forall operation :: ReplayStep(c, s.data, i, operation, input) == Refused(Exhausted)
  {
    RunRecords(c, content, recordingId, generation, provider, calls, s);
    if i < |calls| && Same(input, calls[i].input) {
      EntryReplays(c, content, calls, s.data, i, input);
    }
  }

  // ---- Whole replays ----

  /** The answers to a sequence of operations fed from a cursor, and where the cursor ends. */
  function ReplayAll(c: Codec, d: Data, cursor: nat, fed: seq<(Text, Json)>): (seq<Step>, nat)
    decreases |fed|
  {
    if fed == [] then ([], cursor)
    else
      var step := ReplayStep(c, d, cursor, fed[0].0, fed[0].1);
      var (rest, end) := ReplayAll(c, d, if step.Answered? then step.cursor else cursor, fed[1..]);
      ([step] + rest, end)
  }

  lemma {:induction false} ReplayAllStep(c: Codec, d: Data, from: nat, fed: seq<(Text, Json)>)
    requires fed != []
    ensures var step := ReplayStep(c, d, from, fed[0].0, fed[0].1);
      var (rest, end) := ReplayAll(c, d, if step.Answered? then step.cursor else from, fed[1..]);
      ReplayAll(c, d, from, fed) == ([step] + rest, end)
  {
  }

  /** The same operations as these calls, inputs equal up to key order. */
  ghost predicate Feeds(fed: seq<(Text, Json)>, calls: seq<Call>) {
    && |fed| == |calls|
    && forall i :: 0 <= i < |fed| ==>
         fed[i].0 == calls[i].operation && Regular(fed[i].1) && Same(fed[i].1, calls[i].input)
  }

  lemma {:induction false} FeedsNext(fed: seq<(Text, Json)>, calls: seq<Call>, from: nat)
    requires fed != [] && from <= |calls| && Feeds(fed, calls[from..])
    ensures from < |calls| && Feeds(fed[1..], calls[from + 1..])
    ensures fed[0].0 == calls[from].operation && Regular(fed[0].1) && Same(fed[0].1, calls[from].input)
  {
    assert calls[from..][0] == calls[from] && calls[from..][1..] == calls[from + 1..];
  }

  /** Every step is answered, as the calls from `from` on were, and the end is the end of the run. */
  ghost predicate AllAnswered(calls: seq<Call>, from: nat, steps: seq<Step>, end: nat) {
    && end == |calls| == from + |steps|
    && forall i :: 0 <= i < |steps| ==> steps[i].Answered? && Matches(calls[from + i].response, steps[i].answer)
  }

  lemma {:induction false} OneMoreAnswered(calls: seq<Call>, from: nat, step: Step, rest: seq<Step>, end: nat)
    requires from < |calls| && AllAnswered(calls, from + 1, rest, end)
    requires step.Answered? && Matches(calls[from].response, step.answer)
    ensures AllAnswered(calls, from, [step] + rest, end)
  {
    forall i | 0 <= i < |rest| + 1
      ensures ([step] + rest)[i].Answered? && Matches(calls[from + i].response, ([step] + rest)[i].answer)
    {
      if i > 0 { assert Matches(calls[from + 1 + (i - 1)].response, rest[i - 1].answer); }
    }
  }

  /** Feeding a whole recorded run, from any operation on, answers every operation in order and ends at the end. */
  lemma {:induction false} ReplayAllRefinesRun(c: Codec, content: Contents, calls: seq<Call>, d: Data, from: nat,
                                               fed: seq<(Text, Json)>)
    requires Lawful(c) && Named(content) && Recorded(c, content, calls, d)
    requires AllFaithful(c, content, calls)
    requires from <= |calls| && Feeds(fed, calls[from..])
    ensures AllAnswered(calls, from, ReplayAll(c, d, from, fed).0, ReplayAll(c, d, from, fed).1)
    decreases |fed|
  {
    if fed != [] {
      FeedsNext(fed, calls, from);
      EntryReplays(c, content, calls, d, from, fed[0].1);
      ReplayAllRefinesRun(c, content, calls, d, from + 1, fed[1..]);
      ReplayAllStep(c, d, from, fed);
      var step := ReplayStep(c, d, from, fed[0].0, fed[0].1);
      var (rest, end) := ReplayAll(c, d, from + 1, fed[1..]);
      OneMoreAnswered(calls, from, step, rest, end);
    }
  }

  // ---- Replays fed anything ----

  /** Two different inputs whose canonical texts share a digest. */
  ghost predicate InputCollision(c: Codec, v: Json, w: Json) {
    InputDigest(c, v).Some? && InputDigest(c, v) == InputDigest(c, w) && CanonicalText(v) != CanonicalText(w)
  }

  /** What was fed is this call's operation and input, keys in any order, or an input that collides with it. */
  ghost predicate Asks(c: Codec, operation: Text, input: Json, call: Call) {
    operation == call.operation && (Same(input, call.input) || InputCollision(c, input, call.input))
  }

  lemma {:induction false} DigestsAgree(c: Codec, v: Json, w: Json)
    requires Regular(v) && Regular(w) && CanonicalText(w).Some?
    ensures InputDigest(c, v) == InputDigest(c, w) <==> Same(v, w) || InputCollision(c, v, w)
  {
    if Same(v, w) { SameInputsMatch(c, v, w); }
    if InputDigest(c, v) == InputDigest(c, w) && CanonicalText(v) == CanonicalText(w) { EqualTextMeansSame(v, w); }
  }

  /** The answer at a cursor depends on the fed input only through its digest. */
  lemma {:induction false} SameDigestSameStep(c: Codec, d: Data, i: nat, operation: Text, v: Json, w: Json)
    requires InputDigest(c, v) == InputDigest(c, w)
    ensures ReplayStep(c, d, i, operation, v) == ReplayStep(c, d, i, operation, w)
  {
  }

  /** A replay answers at a cursor exactly what the call recorded there asked, and then as its provider did; everything
      else is refused. */
  lemma {:induction false} AnsweredExactly(c: Codec, content: Contents, calls: seq<Call>, d: Data, i: nat,
                                           operation: Text, input: Json)
    requires Lawful(c) && Named(content) && Recorded(c, content, calls, d) && AllFaithful(c, content, calls)
    requires Regular(input)
    ensures var step := ReplayStep(c, d, i, operation, input);
      && (step.Answered? <==> i < |calls| && Asks(c, operation, input, calls[i]))
      && (step.Answered? ==> step.cursor == i + 1 && Matches(calls[i].response, step.answer))
  {
    if i < |calls| {
      assert d.entries[i].entry == EntryOf(calls[i]) by { ghost var none: seq<Sealed> := []; assert |none| + i == i; }
      assert Faithful(c, content, calls[i]);
      ChainedInputPrints(c, d.entries, i);
      DigestsAgree(c, input, calls[i].input);
      SameHasOneNormal(calls[i].input, calls[i].input);
      EntryReplays(c, content, calls, d, i, calls[i].input);
      if InputDigest(c, input) == InputDigest(c, calls[i].input) {
        SameDigestSameStep(c, d, i, calls[i].operation, input, calls[i].input);
      }
    }
  }

  /** What was fed and answered, with its answers, in order. */
  function Exchanges(fed: seq<(Text, Json)>, steps: seq<Step>): seq<(Text, Json, Answer)>
    requires |fed| == |steps|
    decreases |fed|
  {
    if fed == [] then []
    else (if steps[0].Answered? then [(fed[0].0, fed[0].1, steps[0].answer)] else []) + Exchanges(fed[1..], steps[1..])
  }

  /** This exchange is the call, as its provider answered it. */
  ghost predicate IsCall(c: Codec, x: (Text, Json, Answer), call: Call) {
    Asks(c, x.0, x.1, call) && Matches(call.response, x.2)
  }

  /** These exchanges are the calls from `from` on, in order. */
  ghost predicate FollowsFrom(c: Codec, xs: seq<(Text, Json, Answer)>, calls: seq<Call>, from: nat) {
    from + |xs| <= |calls| && forall k :: 0 <= k < |xs| ==> IsCall(c, xs[k], calls[from + k])
  }

  lemma {:induction false} FollowsOneMore(c: Codec, x: (Text, Json, Answer), xs: seq<(Text, Json, Answer)>,
                                          calls: seq<Call>, from: nat)
    requires from < |calls| && IsCall(c, x, calls[from]) && FollowsFrom(c, xs, calls, from + 1)
    ensures FollowsFrom(c, [x] + xs, calls, from)
  {
    forall k | 0 <= k < |xs| + 1 ensures IsCall(c, ([x] + xs)[k], calls[from + k]) {
      if k > 0 { assert IsCall(c, xs[k - 1], calls[from + 1 + (k - 1)]); }
    }
  }

  /** The steps answer the calls from `from` on, and the cursor ends behind the last call answered. */
  ghost predicate Follows(c: Codec, calls: seq<Call>, from: nat, fed: seq<(Text, Json)>, steps: seq<Step>, end: nat) {
    && |steps| == |fed| && end == from + |Exchanges(fed, steps)|
    && FollowsFrom(c, Exchanges(fed, steps), calls, from)
  }

  lemma {:induction false} StepFollows(c: Codec, content: Contents, calls: seq<Call>, d: Data, from: nat,
                                       operation: Text, input: Json)
    requires Lawful(c) && Named(content) && Recorded(c, content, calls, d) && AllFaithful(c, content, calls)
    requires Regular(input)
    ensures var step := ReplayStep(c, d, from, operation, input);
      step.Answered? ==>
        from < |calls| && step.cursor == from + 1 && IsCall(c, (operation, input, step.answer), calls[from])
  {
    AnsweredExactly(c, content, calls, d, from, operation, input);
  }

  lemma {:induction false} FollowsStep(c: Codec, calls: seq<Call>, from: nat, fed: seq<(Text, Json)>,
                                       step: Step, rest: seq<Step>, end: nat)
    requires fed != []
    requires step.Answered? ==>
      && from < |calls| && step.cursor == from + 1 && IsCall(c, (fed[0].0, fed[0].1, step.answer), calls[from])
    requires Follows(c, calls, if step.Answered? then from + 1 else from, fed[1..], rest, end)
    ensures Follows(c, calls, from, fed, [step] + rest, end)
  {
    assert ([step] + rest)[1..] == rest;
    var xs := Exchanges(fed[1..], rest);
    if step.Answered? {
      FollowsOneMore(c, (fed[0].0, fed[0].1, step.answer), xs, calls, from);
    } else {
      assert Exchanges(fed, [step] + rest) == xs;
    }
  }

  /** Whatever a replay is fed, repeats, omissions and foreign operations included, what it answers is the recorded run
      from its cursor on: in order, none skipped, none twice, each as its provider answered; and the cursor ends behind
      the last one answered. */
  lemma {:induction false} AnyFeedFollowsRun(c: Codec, content: Contents, calls: seq<Call>, d: Data, from: nat,
                                             fed: seq<(Text, Json)>)
    requires Lawful(c) && Named(content) && Recorded(c, content, calls, d) && AllFaithful(c, content, calls)
    requires from <= |calls| && forall i :: 0 <= i < |fed| ==> Regular(fed[i].1)
    ensures Follows(c, calls, from, fed, ReplayAll(c, d, from, fed).0, ReplayAll(c, d, from, fed).1)
    decreases |fed|
  {
    if fed != [] {
      var step := ReplayStep(c, d, from, fed[0].0, fed[0].1);
      StepFollows(c, content, calls, d, from, fed[0].0, fed[0].1);
      var next := if step.Answered? then step.cursor else from;
      AnyFeedFollowsRun(c, content, calls, d, next, fed[1..]);
      ReplayAllStep(c, d, from, fed);
      var (rest, end) := ReplayAll(c, d, next, fed[1..]);
      FollowsStep(c, calls, from, fed, step, rest, end);
    }
  }

  // ---- Outputs that carry anything ----

  lemma {:induction false} TerminalReplays(c: Codec, d: Data, i: nat, call: Call, input: Json)
    requires i < |d.entries| && d.entries[i].entry == EntryOf(call)
    requires InputDigest(c, input).Some? && InputDigest(c, input) == InputDigest(c, call.input)
    requires call.response.Output? ==> Regular(call.response.value)
    ensures var step := ReplayStep(c, d, i, call.operation, input);
      step.Answered? && Matches(call.response, step.answer)
      <==> (call.response.Output? ==> Returns(VaultOf(c, d, d.entries[i].entry), call.response.value))
  {
    if call.response.Output? {
      SurvivesExactly(VaultOf(c, d, d.entries[i].entry), call.response.value);
    } else {
      ErrorsReplay(call.response.error);
    }
  }

  /** With nothing asked of what the outputs carry: a recorded operation fed at its own place is answered as its
      provider answered exactly when every object of its output returns from the recorded table. Errors always are. */
  lemma {:induction false} EntryReplaysExactly(c: Codec, recordingId: Text, generation: Text, provider: Json,
                                               calls: seq<Call>, s: Space, i: nat, input: Json)
    requires RecordAll(c, Fresh(recordingId, generation, provider), calls) == Some(s) && i < |calls|
    requires Regular(input) && Regular(calls[i].input) && Same(input, calls[i].input)
    requires calls[i].response.Output? ==> Regular(calls[i].response.value)
    ensures i < |s.data.entries|
    ensures var step := ReplayStep(c, s.data, i, calls[i].operation, input);
      step.Answered? && Matches(calls[i].response, step.answer)
      <==> (calls[i].response.Output? ==>
              Returns(VaultOf(c, s.data, s.data.entries[i].entry), calls[i].response.value))
  {
    RunGrows(c, Fresh(recordingId, generation, provider), calls, s);
    assert s.data.entries[i].entry == EntryOf(calls[i]) by {
      ghost var none: seq<Sealed> := [];
      assert |none| + i == i;
    }
    ChainedInputPrints(c, s.data.entries, i);
    SameInputsMatch(c, input, calls[i].input);
    TerminalReplays(c, s.data, i, calls[i], input);
  }

  // ---- Artifacts read in chunks ----

  lemma {:induction false} TableBytesFound(c: Codec, table: seq<Keyed<Artifact>>, ref: Text)
    requires Find(table, ref).Some? && Find(table, ref).value.source.Inline?
    ensures ref in TableBytes(c, table)
    ensures TableBytes(c, table)[ref] == c.decode(Find(table, ref).value.source.dataBase64)
  {
    if table[0].key != ref { TableBytesFound(c, table[1..], ref); }
  }

  /** Reading an artifact to its end in chunks of any sizes records it so that replay gives every single chunk back: the
      answer any read along the way had is refilled with exactly its own bytes. */
  lemma {:induction false} ChunksComeBack(c: Codec, st: Pending, d: Data, ref: Text, r: Record, sizes: seq<nat>,
                                          i: nat, members: seq<Keyed<Json>>)
    requires Lawful(c) && Counted(st)
    requires forall j :: 0 <= j < |sizes| ==> 1 <= sizes[j] <= MAX_CHUNK_BYTES
    requires Collectable(c, Pending(st.partials, Others(st, ref)), d, ref, r)
    requires var chunks := ReadRun(c, ref, r, 0, sizes); chunks != [] && chunks[|chunks| - 1].eof
    requires i < |ReadRun(c, ref, r, 0, sizes)| && ChunkOf(Obj(members)) == Some(ReadRun(c, ref, r, 0, sizes)[i])
    ensures var done := CollectAll(c, st, d, ReadRun(c, ref, r, 0, sizes));
      && done.Some?
      && OwnBytesReturn(Vault(ARTIFACT_READ, {}, TableBytes(c, done.value.1.artifacts), c.encode), members)
  {
    ReadsRebuild(c, st, d, ref, r, sizes);
    var table := CollectAll(c, st, d, ReadRun(c, ref, r, 0, sizes)).value.1.artifacts;
    TableBytesFound(c, table, ref);
    RunIsStretches(c, ref, r, 0, sizes, i);
    StretchReturns(Vault(ARTIFACT_READ, {}, TableBytes(c, table), c.encode), c, r.bytes, members);
  }

  lemma {:induction false} StretchReturns(k: Vault, c: Codec, bytes: Bytes, members: seq<Keyed<Json>>)
    requires k.operation == ARTIFACT_READ && k.inlined == {} && k.encode == c.encode
    requires ChunkOf(Obj(members)).Some? && Stretch(c, bytes, ChunkOf(Obj(members)).value)
    requires var ref := ChunkOf(Obj(members)).value.artifactRef; ref in k.bytes && k.bytes[ref] == bytes
    ensures OwnBytesReturn(k, members)
  {
    assert Chunk(members) && !Inlines(k, members) && Reads(k, members);
  }
}
