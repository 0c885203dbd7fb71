/** What verification of a recording is worth: built recordings pass it, and a shared digest means a shared history. */
module RecordingLaws {
  import opened Text
  import opened Members
  import opened Options
  import opened Json
  import opened JsonReader
  import opened JsonLaws
  import opened Recording

  // ---- Regular values ----

  ghost predicate RegularTerminal(t: Terminal) {
    match t
    case Succeeded(output) => Regular(output)
    case Failed(error) => error.details.Some? ==> Regular(error.details.value)
  }

  /** An entry made of values JavaScript can hold. */
  ghost predicate RegularEntry(e: Entry) { Regular(e.input) && RegularTerminal(e.terminal) }

  /** A recording made of values JavaScript can hold: any file that parses is one. */
  ghost predicate RegularData(d: Data) {
    && Regular(d.provider)
    && (forall i :: 0 <= i < |d.entries| ==> RegularEntry(d.entries[i].entry))
    && Distinct(d.artifacts)
  }

  lemma {:induction false} Differ(s: string, t: string)
    requires |s| == |t| && |s| > 0 && s[0] != t[0] && s[0] < 128 as char && t[0] < 128 as char
    ensures Ascii(s) != Ascii(t)
  {
    assert Ascii(s)[0] != Ascii(t)[0];
  }

  lemma {:induction false} BodyDistinct(e: Entry, sequence: nat, previous: Text)
    ensures Distinct(BodyFields(e, sequence, previous))
    ensures Distinct(BodyFields(e, sequence, previous) + [Field("sha256", Str(previous))])
  {
    Differ("sequence", "terminal");
  }

  lemma {:induction false} TerminalRegular(t: Terminal)
    requires RegularTerminal(t)
    ensures Regular(TerminalJson(t))
  {
    match t
    case Succeeded(_) =>
    case Failed(error) =>
      Differ("message", "outcome");
      Differ("details", "outcome");
      Differ("details", "message");
      assert Regular(ErrorJson(error));
  }

  lemma {:induction false} BodyRegular(e: Entry, sequence: nat, previous: Text)
    requires RegularEntry(e)
    ensures Regular(EntryBody(e, sequence, previous))
  {
    BodyDistinct(e, sequence, previous);
    TerminalRegular(e.terminal);
    var f := BodyFields(e, sequence, previous);
    forall i | 0 <= i < |f| ensures Regular(f[i].value) {
    }
  }

  // ---- Equal JSON, equal parts ----

  /** Objects whose keys stand in the same places are the same exactly member by member. */
  lemma {:induction false} SameFields(m: seq<Keyed<Json>>, n: seq<Keyed<Json>>)
    requires |m| == |n| && forall i :: 0 <= i < |m| ==> m[i].key == n[i].key
    requires Same(Obj(m), Obj(n))
    ensures forall i :: 0 <= i < |m| ==> Same(m[i].value, n[i].value)
  {
  }

  lemma {:induction false} SameStrings(a: seq<Text>, b: seq<Text>)
    requires Same(Arr(Strings(a)), Arr(Strings(b)))
    ensures a == b
  {
    forall i | 0 <= i < |a| ensures a[i] == b[i] {
      assert Same(Strings(a)[i], Strings(b)[i]);
    }
  }

  ghost predicate SameTerminal(t: Terminal, u: Terminal) {
    match (t, u)
    case (Succeeded(a), Succeeded(b)) => Same(a, b)
    case (Failed(e), Failed(f)) =>
      && e.code == f.code && e.message == f.message && e.outcome == f.outcome && e.retryable == f.retryable
      && e.details.Some? == f.details.Some? && (e.details.Some? ==> Same(e.details.value, f.details.value))
    case _ => false
  }

  lemma {:induction false} OutcomeTexts(o: Outcome, p: Outcome)
    requires OutcomeText(o) == OutcomeText(p)
    ensures o == p
  {
    Differ("applied", "notSent");
  }

  lemma {:induction false} DetailsTell(e: RecordedError, f: RecordedError)
    requires Same(ErrorJson(e), ErrorJson(f))
    ensures e.details.Some? == f.details.Some?
  {
    var m, n := ErrorJson(e).members, ErrorJson(f).members;
    Differ("details", "outcome");
    Differ("details", "message");
    if e.details.Some? && f.details.None? {
      KeyMissing(m, n, 4);
    } else if f.details.Some? && e.details.None? {
      KeyMissingLeft(m, n, 4);
    }
  }

  lemma {:induction false} SameErrors(e: RecordedError, f: RecordedError)
    requires Same(ErrorJson(e), ErrorJson(f))
    ensures SameTerminal(Failed(e), Failed(f))
  {
    DetailsTell(e, f);
    var m, n := ErrorJson(e).members, ErrorJson(f).members;
    SameFields(m, n);
    assert Same(m[0].value, n[0].value) && Same(m[1].value, n[1].value) && Same(m[2].value, n[2].value);
    assert Same(m[3].value, n[3].value);
    assert e.details.Some? ==> Same(m[4].value, n[4].value);
    OutcomeTexts(e.outcome, f.outcome);
  }

  lemma {:induction false} SameTerminals(t: Terminal, u: Terminal)
    requires Same(TerminalJson(t), TerminalJson(u))
    ensures SameTerminal(t, u)
  {
    var m, n := TerminalJson(t).members, TerminalJson(u).members;
    if t.Succeeded? != u.Succeeded? {
      Differ("output", "error_");
      if t.Succeeded? { KeyMissing(m, n, 1); } else { KeyMissingLeft(m, n, 1); }
    } else {
      SameFields(m, n);
      assert Same(m[1].value, n[1].value);
      if t.Failed? { SameErrors(t.error, u.error); }
    }
  }

  lemma {:induction false} KeyMissing(m: seq<Keyed<Json>>, n: seq<Keyed<Json>>, i: nat)
    requires i < |m| && forall j :: 0 <= j < |n| ==> n[j].key != m[i].key
    ensures !Same(Obj(m), Obj(n))
  {
    assert m[i] in m;
    assert m[i].key in Keys(m);
  }

  lemma {:induction false} KeyMissingLeft(m: seq<Keyed<Json>>, n: seq<Keyed<Json>>, i: nat)
    requires i < |n| && forall j :: 0 <= j < |m| ==> m[j].key != n[i].key
    ensures !Same(Obj(m), Obj(n))
  {
    assert n[i] in n;
    assert n[i].key in Keys(n);
  }

  /** The same recorded step: its values may differ only in the order of object keys. */
  ghost predicate Agrees(e: Entry, f: Entry) {
    && e.operation == f.operation
    && Same(e.input, f.input)
    && SameTerminal(e.terminal, f.terminal)
    && e.inlineArtifacts == f.inlineArtifacts && e.artifactRefs == f.artifactRefs
  }

  lemma {:induction false} SameBodies(e: Entry, i: nat, p: Text, f: Entry, j: nat, q: Text)
    requires Same(EntryBody(e, i, p), EntryBody(f, j, q))
    ensures i == j && p == q && Agrees(e, f)
  {
    var m, n := BodyFields(e, i, p), BodyFields(f, j, q);
    SameFields(m, n);
    FieldsTell(e, i, p, f, j, q);
  }

  lemma {:induction false} FieldsTell(e: Entry, i: nat, p: Text, f: Entry, j: nat, q: Text)
    requires forall k :: 0 <= k < 7 ==> Same(BodyFields(e, i, p)[k].value, BodyFields(f, j, q)[k].value)
    ensures i == j && p == q && Agrees(e, f)
  {
    var m, n := BodyFields(e, i, p), BodyFields(f, j, q);
    assert Same(m[0].value, n[0].value) && Same(m[1].value, n[1].value) && Same(m[2].value, n[2].value);
    assert Same(m[3].value, n[3].value) && Same(m[4].value, n[4].value);
    assert Same(m[5].value, n[5].value) && Same(m[6].value, n[6].value);
    SameTerminals(e.terminal, f.terminal);
    SameStrings(e.inlineArtifacts, f.inlineArtifacts);
    SameStrings(e.artifactRefs, f.artifactRefs);
  }

  ghost predicate SameStep(s: Sealed, t: Sealed) { Agrees(s.entry, t.entry) && s.sha256 == t.sha256 }

  // ---- Soundness of the chain ----

  /** The text an entry's digest is taken over. */
  ghost function EntryText(s: Sealed): Option<Text> { CanonicalText(EntryBody(s.entry, s.sequence, s.previous)) }

  /** Two different texts, both digested by these recordings, with one digest. */
  ghost predicate EntryCollision(c: Codec, s: Sealed, t: Sealed) {
    && EntryText(s).Some? && EntryText(t).Some? && EntryText(s) != EntryText(t)
    && c.textDigest(EntryText(s).value) == c.textDigest(EntryText(t).value)
  }

  /** One digest, two entries: they are the same step at the same place after the same digest, or the digest function
      has collided on their texts. */
  lemma {:induction false} DigestNamesEntry(c: Codec, s: Sealed, t: Sealed)
    requires RegularEntry(s.entry) && RegularEntry(t.entry)
    requires Linked(c, s, s.sequence, s.previous) && Linked(c, t, t.sequence, t.previous)
    requires s.sha256 == t.sha256
    ensures EntryCollision(c, s, t)
         || (s.sequence == t.sequence && s.previous == t.previous && Agrees(s.entry, t.entry))
  {
    if EntryText(s) == EntryText(t) {
      BodyRegular(s.entry, s.sequence, s.previous);
      BodyRegular(t.entry, t.sequence, t.previous);
      EqualTextMeansSame(EntryBody(s.entry, s.sequence, s.previous), EntryBody(t.entry, t.sequence, t.previous));
      SameBodies(s.entry, s.sequence, s.previous, t.entry, t.sequence, t.previous);
    }
  }

  /** Some pair of entries, no later than these two, shows a digest collision. */
  ghost predicate Collided(c: Codec, a: seq<Sealed>, k: nat, b: seq<Sealed>, m: nat) {
    exists i, j :: 0 <= i <= k && 0 <= j <= m && i < |a| && j < |b| && EntryCollision(c, a[i], b[j])
  }

  lemma {:induction false} CollidedEarlier(c: Codec, a: seq<Sealed>, b: seq<Sealed>, k: nat)
    requires 0 < k && Collided(c, a, k - 1, b, k - 1)
    ensures Collided(c, a, k, b, k)
  {
    var i, j :| 0 <= i <= k - 1 && 0 <= j <= k - 1 && i < |a| && j < |b| && EntryCollision(c, a[i], b[j]);
  }

  /** Two chains that share one entry digest, wherever it stands, stand at one position there and agree on every entry
      up to it, digests included, unless two of their entries exhibit a digest collision. */
  lemma {:induction false} SharedDigestSharesHistory(c: Codec, a: seq<Sealed>, k: nat, b: seq<Sealed>, m: nat)
    requires k < |a| && m < |b| && Chain(c, a) && Chain(c, b)
    requires forall i :: 0 <= i < |a| ==> RegularEntry(a[i].entry)
    requires forall i :: 0 <= i < |b| ==> RegularEntry(b[i].entry)
    requires a[k].sha256 == b[m].sha256
    ensures Collided(c, a, k, b, m)
      || (k == m && forall i :: 0 <= i <= k ==> SameStep(a[i], b[i]))
    decreases k
  {
    SharedDigestStepsBack(c, a, k, b, m);
    if EntryCollision(c, a[k], b[m]) {
      assert Collided(c, a, k, b, m);
    } else if k > 0 {
      SharedDigestSharesHistory(c, a, k - 1, b, k - 1);
      if Collided(c, a, k - 1, b, k - 1) { CollidedEarlier(c, a, b, k); }
    }
  }

  /** One step back along two chains with a common digest. */
  lemma {:induction false} SharedDigestStepsBack(c: Codec, a: seq<Sealed>, k: nat, b: seq<Sealed>, m: nat)
    requires k < |a| && m < |b| && Chain(c, a) && Chain(c, b)
    requires RegularEntry(a[k].entry) && RegularEntry(b[m].entry) && a[k].sha256 == b[m].sha256
    ensures EntryCollision(c, a[k], b[m])
      || (k == m && SameStep(a[k], b[k]) && (k > 0 ==> a[k - 1].sha256 == b[k - 1].sha256))
  {
    Stands(c, a, k);
    Stands(c, b, m);
    DigestNamesEntry(c, a[k], b[m]);
  }

  /** An entry of a chain carries its own position and the digest before it. */
  lemma {:induction false} Stands(c: Codec, a: seq<Sealed>, k: nat)
    requires k < |a| && Chain(c, a)
    ensures a[k].sequence == k && a[k].previous == PreviousDigest(a, k)
    ensures Linked(c, a[k], a[k].sequence, a[k].previous)
  {
    assert Linked(c, a[k], k, PreviousDigest(a, k));
  }

  /** Two verifying recordings that share an entry digest share the history up to it. */
  lemma {:induction false} VerifiedDigestSharesHistory(c: Codec, a: Data, k: nat, b: Data, m: nat)
    requires RegularData(a) && RegularData(b) && Verifies(c, a, false) && Verifies(c, b, false)
    requires k < |a.entries| && m < |b.entries| && a.entries[k].sha256 == b.entries[m].sha256
    ensures Collided(c, a.entries, k, b.entries, m)
      || (k == m && forall i :: 0 <= i <= k ==> SameStep(a.entries[i], b.entries[i]))
  {
    SharedDigestSharesHistory(c, a.entries, k, b.entries, m);
  }

  // ---- Soundness of the final digest ----

  lemma {:induction false} GlobalDistinct(d: Data)
    ensures Distinct(GlobalFields(d))
  {
    Differ("version", "entries");
  }

  lemma {:induction false} SealedRegular(s: Sealed)
    requires RegularEntry(s.entry)
    ensures Regular(SealedJson(s))
  {
    BodyRegular(s.entry, s.sequence, s.previous);
    BodyDistinct(s.entry, s.sequence, s.previous);
    assert Regular(EntryBody(s.entry, s.sequence, s.previous));
    var f := BodyFields(s.entry, s.sequence, s.previous) + [Field("sha256", Str(s.sha256))];
    var g := BodyFields(s.entry, s.sequence, s.previous);
    forall i | 0 <= i < |f| ensures Regular(f[i].value) {
      if i < |g| { assert f[i] == g[i]; }
    }
    assert Distinct(f) by {
      var h := g + [Field("sha256", Str(s.previous))];
      assert forall i :: 0 <= i < |f| ==> f[i].key == h[i].key;
    }
  }

  lemma {:induction false} ArtifactRegular(a: Artifact)
    ensures Regular(ArtifactJson(a))
  {
    Differ("kind", "file");
    Differ("dataBase64", "byteLength");
  }

  lemma {:induction false} GlobalRegular(d: Data)
    requires RegularData(d)
    ensures Regular(GlobalBody(d))
  {
    GlobalDistinct(d);
    var items, table := SealedItems(d.entries), ArtifactMembers(d.artifacts);
    forall i | 0 <= i < |items| ensures Regular(items[i]) {
      SealedRegular(d.entries[i]);
    }
    forall i | 0 <= i < |table| ensures Regular(table[i].value) {
      ArtifactRegular(d.artifacts[i].value);
    }
    var f := GlobalFields(d);
    forall i | 0 <= i < |f| ensures Regular(f[i].value) {
    }
  }

  lemma {:induction false} SameSealed(s: Sealed, t: Sealed)
    requires Same(SealedJson(s), SealedJson(t))
    ensures s.sequence == t.sequence && s.previous == t.previous && s.sha256 == t.sha256 && Agrees(s.entry, t.entry)
  {
    var m := BodyFields(s.entry, s.sequence, s.previous) + [Field("sha256", Str(s.sha256))];
    var n := BodyFields(t.entry, t.sequence, t.previous) + [Field("sha256", Str(t.sha256))];
    SameFields(m, n);
    assert Same(m[7].value, n[7].value);
    var a, b := BodyFields(s.entry, s.sequence, s.previous), BodyFields(t.entry, t.sequence, t.previous);
    forall i | 0 <= i < 7 ensures Same(a[i].value, b[i].value) {
      assert Same(m[i].value, n[i].value);
    }
    FieldsTell(s.entry, s.sequence, s.previous, t.entry, t.sequence, t.previous);
  }

  lemma {:induction false} SourceTells(a: Artifact, b: Artifact)
    requires Same(ArtifactJson(a), ArtifactJson(b))
    ensures a.source.Inline? == b.source.Inline?
  {
    if a.source.Inline? != b.source.Inline? {
      Differ("kind", "file");
      Differ("dataBase64", "byteLength");
      KeyMissing(ArtifactJson(a).members, ArtifactJson(b).members, 4);
    }
  }

  lemma {:induction false} SameArtifactJson(a: Artifact, b: Artifact)
    requires Same(ArtifactJson(a), ArtifactJson(b))
    ensures a == b
  {
    SourceTells(a, b);
    SameFields(ArtifactJson(a).members, ArtifactJson(b).members);
    ArtifactTells(a, b);
  }

  lemma {:induction false} ArtifactTells(a: Artifact, b: Artifact)
    requires a.source.Inline? == b.source.Inline?
    requires forall k :: 0 <= k < 5 ==> Same(ArtifactJson(a).members[k].value, ArtifactJson(b).members[k].value)
    ensures a == b
  {
    var m, n := ArtifactJson(a).members, ArtifactJson(b).members;
    assert Same(m[0].value, n[0].value) && Same(m[1].value, n[1].value) && Same(m[2].value, n[2].value);
    assert Same(m[3].value, n[3].value) && Same(m[4].value, n[4].value);
  }

  /** Tables that hold the same artifact under every reference; only the insertion order may differ. */
  ghost predicate SameTable(a: seq<Keyed<Artifact>>, b: seq<Keyed<Artifact>>) {
    Keys(a) == Keys(b) && Agree(a, b)
  }

  ghost predicate GlobalCollision(c: Codec, a: Data, b: Data) {
    && CanonicalText(GlobalBody(a)).Some? && CanonicalText(GlobalBody(b)).Some?
    && CanonicalText(GlobalBody(a)) != CanonicalText(GlobalBody(b))
    && FinalDigest(c, a) == FinalDigest(c, b)
  }

  lemma {:induction false} SameArtifactTables(a: seq<Keyed<Artifact>>, b: seq<Keyed<Artifact>>)
    requires Same(Obj(ArtifactMembers(a)), Obj(ArtifactMembers(b)))
    ensures SameTable(a, b)
  {
    var x, y := ArtifactMembers(a), ArtifactMembers(b);
    ArtifactKeys(a);
    ArtifactKeys(b);
    forall i, j | 0 <= i < |a| && 0 <= j < |b| && a[i].key == b[j].key ensures a[i].value == b[j].value {
      assert x[i].key == y[j].key;
      SameArtifactJson(a[i].value, b[j].value);
    }
  }

  lemma {:induction false} ArtifactKeys(a: seq<Keyed<Artifact>>)
    ensures Keys(ArtifactMembers(a)) == Keys(a)
  {
    var x := ArtifactMembers(a);
    forall k | k in Keys(a) ensures k in Keys(x) {
      var i :| 0 <= i < |a| && a[i].key == k;
      assert x[i] in x;
    }
    forall k | k in Keys(x) ensures k in Keys(a) {
      var i :| 0 <= i < |x| && x[i].key == k;
      assert a[i] in a;
    }
  }

  /** Two verifying recordings with one final digest are the same recording: identity, provider, every entry, and the
      whole artifact table, unless the two bodies exhibit a digest collision. */
  lemma {:induction false} FinalDigestFixesRecording(c: Codec, a: Data, b: Data)
    requires RegularData(a) && RegularData(b) && Verifies(c, a, false) && Verifies(c, b, false)
    requires a.finalSha256 == b.finalSha256
    ensures GlobalCollision(c, a, b)
      || (&& a.recordingId == b.recordingId && a.generation == b.generation && Same(a.provider, b.provider)
          && |a.entries| == |b.entries| && a.entriesSha256 == b.entriesSha256
          && (forall i :: 0 <= i < |a.entries| ==>
                SameStep(a.entries[i], b.entries[i]))
          && SameTable(a.artifacts, b.artifacts))
  {
    if CanonicalText(GlobalBody(a)) == CanonicalText(GlobalBody(b)) {
      GlobalRegular(a);
      GlobalRegular(b);
      EqualTextMeansSame(GlobalBody(a), GlobalBody(b));
      SameGlobals(a, b);
    }
  }

  lemma {:induction false} SameGlobals(a: Data, b: Data)
    requires Same(GlobalBody(a), GlobalBody(b))
    ensures a.recordingId == b.recordingId && a.generation == b.generation && Same(a.provider, b.provider)
    ensures |a.entries| == |b.entries| && a.entriesSha256 == b.entriesSha256
    ensures forall i :: 0 <= i < |a.entries| ==>
      SameStep(a.entries[i], b.entries[i])
    ensures SameTable(a.artifacts, b.artifacts)
  {
    GlobalParts(a, b);
    SameEntries(a.entries, b.entries);
    SameArtifactTables(a.artifacts, b.artifacts);
  }

  lemma {:induction false} GlobalParts(a: Data, b: Data)
    requires Same(GlobalBody(a), GlobalBody(b))
    ensures a.recordingId == b.recordingId && a.generation == b.generation && a.entriesSha256 == b.entriesSha256
    ensures Same(a.provider, b.provider)
    ensures Same(Arr(SealedItems(a.entries)), Arr(SealedItems(b.entries)))
    ensures Same(Obj(ArtifactMembers(a.artifacts)), Obj(ArtifactMembers(b.artifacts)))
  {
    var m, n := GlobalFields(a), GlobalFields(b);
    SameFields(m, n);
    assert Same(m[2].value, n[2].value) && Same(m[3].value, n[3].value) && Same(m[4].value, n[4].value);
    assert Same(m[5].value, n[5].value) && Same(m[6].value, n[6].value) && Same(m[7].value, n[7].value);
  }

  lemma {:induction false} SameEntries(a: seq<Sealed>, b: seq<Sealed>)
    requires Same(Arr(SealedItems(a)), Arr(SealedItems(b)))
    ensures |a| == |b| && forall i :: 0 <= i < |a| ==> SameStep(a[i], b[i])
  {
    forall i | 0 <= i < |a| ensures |a| == |b| && SameStep(a[i], b[i]) {
      SameEntryAt(a, b, i);
    }
  }

  lemma {:induction false} SameEntryAt(a: seq<Sealed>, b: seq<Sealed>, i: nat)
    requires i < |a| && Same(Arr(SealedItems(a)), Arr(SealedItems(b)))
    ensures |a| == |b| && SameStep(a[i], b[i])
  {
    SameItem(SealedItems(a), SealedItems(b), i);
    SameSealed(a[i], b[i]);
  }

  lemma {:induction false} SameItem(a: seq<Json>, b: seq<Json>, i: nat)
    requires Same(Arr(a), Arr(b)) && i < |a|
    ensures |a| == |b| && Same(a[i], b[i])
  {
  }

  // ---- Completeness: what is built passes ----

  datatype Build = AppendEntry(entry: Entry) | PutArtifact(ref: Text, artifact: Artifact)

  function Step(c: Codec, d: Data, b: Build): Option<Data> {
    match b
    case AppendEntry(entry) => AppendTo(c, d, entry)
    case PutArtifact(ref, artifact) => PutInto(c, d, ref, artifact)
  }

  /** The recording after every step, or None as soon as one throws. */
  function BuildAll(c: Codec, d: Data, steps: seq<Build>): Option<Data>
    decreases |steps|
  {
    if steps == [] then Some(d)
    else
      match Step(c, d, steps[0])
      case Some(next) => BuildAll(c, next, steps[1..])
      case None => None
  }

  /** What every append and put keeps. */
  ghost predicate WellBuilt(c: Codec, d: Data) {
    && |d.entries| <= MAX_ENTRIES && AllShaped(d.entries)
    && Chain(c, d.entries) && d.entriesSha256 == PreviousDigest(d.entries, |d.entries|)
    && (forall i :: 0 <= i < |d.artifacts| ==> RefShaped(d.artifacts[i].key) && ArtifactValid(c, d.artifacts[i].value))
    && Distinct(d.artifacts)
  }

  lemma {:induction false} ChainExtends(c: Codec, entries: seq<Sealed>, s: Sealed)
    requires Chain(c, entries) && Linked(c, s, |entries|, PreviousDigest(entries, |entries|))
    ensures Chain(c, entries + [s])
  {
    var n := entries + [s];
    forall i | 0 <= i < |n| ensures Linked(c, n[i], i, PreviousDigest(n, i)) {
      assert PreviousDigest(n, i) == PreviousDigest(entries, i);
      if i < |entries| { assert Linked(c, entries[i], i, PreviousDigest(entries, i)); }
    }
  }

  lemma {:induction false} AppendedSeal(c: Codec, d: Data, e: Entry) returns (s: Sealed)
    requires Lawful(c) && AppendTo(c, d, e).Some?
    ensures AppendTo(c, d, e).value == d.(entries := d.entries + [s], entriesSha256 := s.sha256)
    ensures Linked(c, s, |d.entries|, d.entriesSha256) && DigestShaped(s.sha256)
  {
    var digest := EntryDigest(c, e, |d.entries|, d.entriesSha256).value;
    s := Sealed(e, |d.entries|, d.entriesSha256, digest);
  }

  lemma {:induction false} AppendKeeps(c: Codec, d: Data, e: Entry)
    requires Lawful(c) && WellBuilt(c, d) && AppendTo(c, d, e).Some?
    ensures WellBuilt(c, AppendTo(c, d, e).value)
  {
    assert |d.entries| < MAX_ENTRIES;
    var s := AppendedSeal(c, d, e);
    ChainExtends(c, d.entries, s);
  }

  lemma {:induction false} PutKeeps(c: Codec, d: Data, ref: Text, a: Artifact)
    requires WellBuilt(c, d) && PutInto(c, d, ref, a).Some?
    ensures WellBuilt(c, PutInto(c, d, ref, a).value)
  {
    AssignDistinct(d.artifacts, ref, a);
    var t := Assign(d.artifacts, ref, a);
    forall i | 0 <= i < |t| ensures RefShaped(t[i].key) && ArtifactValid(c, t[i].value) {
      assert t[i] in t;
    }
  }

  lemma {:induction false} BuildKeeps(c: Codec, d: Data, steps: seq<Build>)
    requires Lawful(c) && WellBuilt(c, d) && BuildAll(c, d, steps).Some?
    ensures WellBuilt(c, BuildAll(c, d, steps).value)
    decreases |steps|
  {
    if steps != [] {
      match steps[0] {
        case AppendEntry(entry) => AppendKeeps(c, d, entry);
        case PutArtifact(ref, artifact) => PutKeeps(c, d, ref, artifact);
      }
      BuildKeeps(c, Step(c, d, steps[0]).value, steps[1..]);
    }
  }

  lemma {:induction false} SealFields(c: Codec, d: Data)
    requires Lawful(c) && SealOf(c, d).Some?
    ensures var s := SealOf(c, d).value;
      && s.entries == d.entries && s.artifacts == d.artifacts && s.entriesSha256 == d.entriesSha256
      && s.complete == NothingMissing(s.entries, s.artifacts)
      && FinalDigest(c, s) == Some(s.finalSha256) && DigestShaped(s.finalSha256)
  {
    var s := SealOf(c, d).value;
    assert GlobalBody(s) == GlobalBody(Marked(d));
  }

  lemma {:induction false} TableValid(c: Codec, d: Data)
    requires WellBuilt(c, d)
    ensures AllValid(c, d.artifacts)
  {
  }

  lemma {:induction false} SealIntact(c: Codec, d: Data, s: Data)
    requires WellBuilt(c, d) && Lawful(c) && SealOf(c, d) == Some(s)
    ensures Intact(c, s) && s.complete == NothingMissing(s.entries, s.artifacts)
  {
    SealFields(c, d);
    TableValid(c, d);
  }

  /** A recording built by create, append, put and seal passes verification exactly when every entry names the
      artifacts its terminal names and the whole is within the size limits; it is accepted as complete exactly when,
      besides, no named artifact is missing. Nothing else can fail. */
  lemma {:induction false} BuiltRecordingVerifies(c: Codec, recordingId: Text, generation: Text, provider: Json,
                                                  steps: seq<Build>, d: Data, s: Data)
    requires Lawful(c)
    requires BuildAll(c, Create(recordingId, generation, provider), steps) == Some(d) && SealOf(c, d) == Some(s)
    ensures Verifies(c, s, false) <==> Presentable(s)
    ensures Verifies(c, s, true) <==> Presentable(s) && NothingMissing(s.entries, s.artifacts)
  {
    BuildKeeps(c, Create(recordingId, generation, provider), steps);
    SealIntact(c, d, s);
  }
}
