/** The tamper-evident recording: entries chained by digest, an artifact table, and one digest over everything. */
module Recording {
  import opened Text
  import opened Members
  import opened Options
  import opened Json

  const MAX_ENTRIES := 10000
  const MAX_ENTRY_BYTES := 1024 * 1024
  const MAX_ARTIFACT_BYTES := 16 * 1024 * 1024
  const MAX_TOTAL_ARTIFACT_BYTES := 64 * 1024 * 1024
  const MAX_NODES := 1000000

  type Byte = b: int | 0 <= b < 256
  type Bytes = seq<Byte>

  /** SHA-256 of a text's UTF-8 bytes and of raw bytes, and base64 (section 4 of RFC 4648). Nothing is assumed of the
      two digests: two different texts may share one. */
  datatype Codec = Codec(textDigest: Text -> Text, byteDigest: Bytes -> Text, encode: Bytes -> Text,
                         decode: Text -> Bytes)

  /** What base64 and hexadecimal digests promise: decoding undoes encoding, and a digest is 64 hexadecimal digits. */
  ghost predicate Lawful(c: Codec) {
    && (forall b :: c.decode(c.encode(b)) == b)
    && (forall t :: DigestShaped(c.textDigest(t)))
    && (forall b :: DigestShaped(c.byteDigest(b)))
  }

  predicate DigestShaped(t: Text) {
    |t| == 64 && forall i :: 0 <= i < |t| ==> 48 <= t[i] <= 57 || 97 <= t[i] <= 102
  }

  const ZERO_DIGEST: Text := Ascii("0000000000000000000000000000000000000000000000000000000000000000")

  // ---- Entries, artifacts, and their JSON ----

  datatype Outcome = NotSent | Rejected | Applied | OutcomeUnknown

  datatype RecordedError =
    RecordedError(code: Text, message: Text, outcome: Outcome, retryable: bool, details: Option<Json>)

  datatype Terminal = Succeeded(output: Json) | Failed(error: RecordedError)

  datatype Entry = Entry(operation: Text, input: Json, terminal: Terminal,
                         inlineArtifacts: seq<Text>, artifactRefs: seq<Text>)

  datatype Sealed = Sealed(entry: Entry, sequence: nat, previous: Text, sha256: Text)

  datatype Source = Inline(dataBase64: Text) | File(name: Text)

  datatype Artifact = Artifact(kind: Text, mimeType: Text, byteLength: nat, sha256: Text, source: Source)

  datatype Data = Data(recordingId: Text, generation: Text, provider: Json, entries: seq<Sealed>,
                       artifacts: seq<Keyed<Artifact>>, entriesSha256: Text, finalSha256: Text, complete: bool)

  function Field(name: string, v: Json): Keyed<Json> { Keyed(Ascii(name), v) }

  function Strings(texts: seq<Text>): (r: seq<Json>)
    ensures |r| == |texts| && forall i :: 0 <= i < |texts| ==> r[i] == Str(texts[i])
  {
    if texts == [] then [] else [Str(texts[0])] + Strings(texts[1..])
  }

  function OutcomeText(o: Outcome): Text {
    match o
    case NotSent => Ascii("notSent")
    case Rejected => Ascii("rejected")
    case Applied => Ascii("applied")
    case OutcomeUnknown => Ascii("outcomeUnknown")
  }

  function ErrorJson(e: RecordedError): Json {
    Obj([Field("code", Str(e.code)), Field("message", Str(e.message)), Field("retryable", Bool(e.retryable)),
         Field("outcome", Str(OutcomeText(e.outcome)))]
        + if e.details.Some? then [Field("details", e.details.value)] else [])
  }

  function TerminalJson(t: Terminal): Json {
    match t
    case Succeeded(output) => Obj([Field("ok", Bool(true)), Field("output", output)])
    case Failed(error) => Obj([Field("ok", Bool(false)), Field("error", ErrorJson(error))])
  }

  function BodyFields(e: Entry, sequence: nat, previous: Text): seq<Keyed<Json>> {
    [Field("sequence", Int(sequence)), Field("previousSha256", Str(previous)), Field("operation", Str(e.operation)),
     Field("input", e.input), Field("terminal", TerminalJson(e.terminal)),
     Field("inlineArtifacts", Arr(Strings(e.inlineArtifacts))), Field("artifactRefs", Arr(Strings(e.artifactRefs)))]
  }

  /** What an entry's digest is taken over. */
  function EntryBody(e: Entry, sequence: nat, previous: Text): Json { Obj(BodyFields(e, sequence, previous)) }

  function SealedJson(s: Sealed): Json {
    Obj(BodyFields(s.entry, s.sequence, s.previous) + [Field("sha256", Str(s.sha256))])
  }

  function SealedItems(entries: seq<Sealed>): (r: seq<Json>)
    ensures |r| == |entries| && forall i :: 0 <= i < |entries| ==> r[i] == SealedJson(entries[i])
  {
    if entries == [] then [] else [SealedJson(entries[0])] + SealedItems(entries[1..])
  }

  function ArtifactJson(a: Artifact): Json {
    Obj([Field("kind", Str(a.kind)), Field("mimeType", Str(a.mimeType)), Field("byteLength", Int(a.byteLength)),
         Field("sha256", Str(a.sha256)),
         match a.source
         case Inline(data) => Field("dataBase64", Str(data))
         case File(name) => Field("file", Str(name))])
  }

  function ArtifactMembers(table: seq<Keyed<Artifact>>): (r: seq<Keyed<Json>>)
    ensures |r| == |table|
    ensures forall i :: 0 <= i < |table| ==> r[i] == Keyed(table[i].key, ArtifactJson(table[i].value))
  {
    if table == [] then [] else [Keyed(table[0].key, ArtifactJson(table[0].value))] + ArtifactMembers(table[1..])
  }

  function GlobalFields(d: Data): seq<Keyed<Json>> {
    [Field("format", Str(Ascii("pyproc.automationRecording"))), Field("version", Int(1)),
     Field("recordingId", Str(d.recordingId)), Field("artifactGeneration", Str(d.generation)),
     Field("provider", d.provider), Field("entriesSha256", Str(d.entriesSha256)),
     Field("entries", Arr(SealedItems(d.entries))), Field("artifacts", Obj(ArtifactMembers(d.artifacts)))]
  }

  /** What the final digest is taken over. */
  function GlobalBody(d: Data): Json { Obj(GlobalFields(d)) }

  /** The whole recording as it is written to its file. */
  function RecordingJson(d: Data): Json {
    Obj(GlobalFields(d) + [Field("finalSha256", Str(d.finalSha256)), Field("complete", Bool(d.complete))])
  }

  // ---- Sizes ----

  /** The length of a text's UTF-8 encoding. */
  function Utf8Length(t: Text): nat {
    if t == [] then 0
    else if Lead(t[0]) && |t| > 1 && Trail(t[1]) then 4 + Utf8Length(t[2..])
    else (if t[0] < 0x80 then 1 else if t[0] < 0x800 then 2 else 3) + Utf8Length(t[1..])
  }

  function TotalBytes(table: seq<Keyed<Artifact>>): nat {
    if table == [] then 0 else table[0].value.byteLength + TotalBytes(table[1..])
  }

  /** How many values a value is made of, itself included. */
  function Nodes(v: Json): nat {
    match v
    case Arr(items) => 1 + ItemNodes(items)
    case Obj(members) => 1 + MemberNodes(members)
    case _ => 1
  }

  function ItemNodes(items: seq<Json>): nat {
    if items == [] then 0 else Nodes(items[0]) + ItemNodes(items[1..])
  }

  function MemberNodes(members: seq<Keyed<Json>>): nat {
    if members == [] then 0 else Nodes(members[0].value) + MemberNodes(members[1..])
  }

  // ---- Artifact references ----

  /** `^artifact:[A-Za-z0-9_-]+$` */
  predicate RefShaped(t: Text) {
    && Ascii("artifact:") <= t && |t| > 9
    && forall i :: 9 <= i < |t| ==>
         65 <= t[i] <= 90 || 97 <= t[i] <= 122 || 48 <= t[i] <= 57 || t[i] == 95 || t[i] == 45
  }

  const ARTIFACT_READ: Text := Ascii("artifact.read")
  const SCREENSHOT: Json := Str(Ascii("screenshot"))
  const ARTIFACT_REF: Text := Ascii("artifactRef")

  /** The artifact an object names in a terminal of this operation, as verification sees it. */
  function NamedRef(operation: Text, members: seq<Keyed<Json>>): Option<Text> {
    if HoldsRef(members)
       && (Find(members, Ascii("kind")) == Some(SCREENSHOT)
           || (operation == ARTIFACT_READ && IsInteger(Find(members, Ascii("offset")))))
    then Some(Find(members, ARTIFACT_REF).value.s) else None
  }

  predicate IsString(v: Option<Json>) { v.Some? && v.value.Str? }

  predicate HoldsRef(members: seq<Keyed<Json>>) {
    IsString(Find(members, ARTIFACT_REF)) && RefShaped(Find(members, ARTIFACT_REF).value.s)
  }

  predicate IsInteger(v: Option<Json>) { v.Some? && v.value.Int? }

  function Own(r: Option<Text>): set<Text> { if r.Some? then {r.value} else {} }

  function RefsIn(operation: Text, v: Json): set<Text> {
    match v
    case Arr(items) => ItemRefs(operation, items)
    case Obj(members) => Own(NamedRef(operation, members)) + MemberRefs(operation, members)
    case _ => {}
  }

  function ItemRefs(operation: Text, items: seq<Json>): set<Text> {
    if items == [] then {} else RefsIn(operation, items[0]) + ItemRefs(operation, items[1..])
  }

  function MemberRefs(operation: Text, members: seq<Keyed<Json>>): set<Text> {
    if members == [] then {} else RefsIn(operation, members[0].value) + MemberRefs(operation, members[1..])
  }

  function Discovered(operation: Text, t: Terminal): set<Text> {
    if t.Succeeded? then RefsIn(operation, t.output) else {}
  }

  // ---- What a recording must satisfy ----

  predicate NoRepeat(texts: seq<Text>) { forall i, j :: 0 <= i < j < |texts| ==> texts[i] != texts[j] }

  /** An error that may have taken effect is never retryable. */
  predicate SoundRetry(t: Terminal) {
    t.Failed? && (t.error.outcome.Applied? || t.error.outcome.OutcomeUnknown?) ==> !t.error.retryable
  }

  /** The entry's own fields agree with each other and with the references its terminal names. */
  predicate Coherent(e: Entry) {
    && e.input.Obj? && SoundRetry(e.terminal)
    && NoRepeat(e.inlineArtifacts) && NoRepeat(e.artifactRefs)
    && (forall i :: 0 <= i < |e.inlineArtifacts| ==> e.inlineArtifacts[i] in e.artifactRefs)
    && (set r | r in e.artifactRefs) == Discovered(e.operation, e.terminal)
  }

  /** The digest of an entry's body, or None where the body does not print or is over the byte limit. */
  function EntryDigest(c: Codec, e: Entry, sequence: nat, previous: Text): Option<Text> {
    match CanonicalText(EntryBody(e, sequence, previous))
    case None => None
    case Some(text) => if Utf8Length(text) > MAX_ENTRY_BYTES then None else Some(c.textDigest(text))
  }

  /** The entry stands at `sequence` after `previous` and its digest is that of its body. */
  predicate Linked(c: Codec, s: Sealed, sequence: nat, previous: Text) {
    s.sequence == sequence && s.previous == previous && EntryDigest(c, s.entry, sequence, previous) == Some(s.sha256)
  }

  /** The digest before an entry: the one of the entry it follows. */
  function PreviousDigest(entries: seq<Sealed>, i: nat): Text
    requires i <= |entries|
  {
    if i == 0 then ZERO_DIGEST else entries[i - 1].sha256
  }

  predicate Chain(c: Codec, entries: seq<Sealed>) {
    forall i {:trigger Linked(c, entries[i], i, PreviousDigest(entries, i))} ::
      0 <= i < |entries| ==> Linked(c, entries[i], i, PreviousDigest(entries, i))
  }

  predicate ArtifactValid(c: Codec, a: Artifact) {
    && 1 <= a.byteLength <= MAX_ARTIFACT_BYTES
    && DigestShaped(a.sha256) && Ascii("image/") <= a.mimeType && a.kind != []
    && match a.source
       case Inline(data) =>
         && c.encode(c.decode(data)) == data
         && |c.decode(data)| == a.byteLength && c.byteDigest(c.decode(data)) == a.sha256
       case File(name) => name == a.sha256 + Ascii(".bin")
  }

  predicate HasRef(table: seq<Keyed<Artifact>>, ref: Text) { exists i :: 0 <= i < |table| && table[i].key == ref }

  /** Every artifact an entry names is in the table. */
  predicate NothingMissing(entries: seq<Sealed>, table: seq<Keyed<Artifact>>) {
    forall i, ref :: 0 <= i < |entries| && ref in entries[i].entry.artifactRefs ==> HasRef(table, ref)
  }

  predicate Bounded(v: Json) { Fits(v, MAX_DEPTH) && Nodes(v) <= MAX_NODES }

  function FinalDigest(c: Codec, d: Data): Option<Text> {
    match CanonicalText(GlobalBody(d))
    case Some(text) => Some(c.textDigest(text))
    case None => None
  }

  predicate AllCoherent(entries: seq<Sealed>) {
    forall i :: 0 <= i < |entries| ==> Coherent(entries[i].entry)
  }

  // ---- The envelope ----

  predicate WordUnit(u: Unit) { 65 <= u <= 90 || 97 <= u <= 122 || 48 <= u <= 57 }

  /** `^[A-Za-z0-9][A-Za-z0-9._:-]*$`, no longer than the limit. */
  predicate IdShaped(t: Text, limit: nat) {
    && 1 <= |t| <= limit && WordUnit(t[0])
    && forall i :: 0 <= i < |t| ==> WordUnit(t[i]) || t[i] == 46 || t[i] == 95 || t[i] == 58 || t[i] == 45
  }

  /** `^[a-z][A-Za-z0-9]{0,63}$` */
  predicate KindShaped(t: Text) {
    1 <= |t| <= 64 && 97 <= t[0] <= 122 && forall i :: 0 <= i < |t| ==> WordUnit(t[i])
  }

  /** A version 4 UUID in lower case (section 4.4 of RFC 4122). */
  predicate UuidShaped(t: Text) {
    && |t| == 36 && t[14] == 52 && (t[19] == 56 || t[19] == 57 || t[19] == 97 || t[19] == 98)
    && forall i :: 0 <= i < |t| ==>
         if i == 8 || i == 13 || i == 18 || i == 23 then t[i] == 45 else 48 <= t[i] <= 57 || 97 <= t[i] <= 102
  }

  predicate IsList(v: Option<Json>) { v.Some? && v.value.Arr? }

  /** A list of nonempty strings without repeats. */
  predicate IsNameList(v: Option<Json>) {
    && IsList(v)
    && (forall i :: 0 <= i < |v.value.items| ==> v.value.items[i].Str? && v.value.items[i].s != [])
    && forall i, j :: 0 <= i < j < |v.value.items| ==> v.value.items[i] != v.value.items[j]
  }

  predicate PolicyShaped(v: Option<Json>) {
    && v.Some? && v.value.Obj?
    && IsList(Find(v.value.members, Ascii("targetOrigins"))) && IsList(Find(v.value.members, Ascii("actions")))
    && IsList(Find(v.value.members, Ascii("rawMethods"))) && IsString(Find(v.value.members, Ascii("maxRisk")))
  }

  /** What the recording says of the space it was taken from. */
  predicate DescriptorShaped(provider: Json) {
    && provider.Obj?
    && var members := provider.members;
    && IsString(Find(members, Ascii("spaceId"))) && IdShaped(Find(members, Ascii("spaceId")).value.s, 128)
    && IsString(Find(members, Ascii("providerKind"))) && KindShaped(Find(members, Ascii("providerKind")).value.s)
    && IsNameList(Find(members, Ascii("operations"))) && Find(members, Ascii("operations")).value.items != []
    && IsNameList(Find(members, Ascii("capabilities"))) && PolicyShaped(Find(members, Ascii("policy")))
  }

  predicate Enveloped(d: Data) {
    IdShaped(d.recordingId, 96) && UuidShaped(d.generation) && DescriptorShaped(d.provider)
  }

  /** What no append or put checks: the envelope, the size limits of the whole, and references that agree with their
      terminals. */
  predicate Presentable(d: Data) {
    && Enveloped(d) && Bounded(RecordingJson(d)) && AllCoherent(d.entries)
    && TotalBytes(d.artifacts) <= MAX_TOTAL_ARTIFACT_BYTES
  }

  predicate AllShaped(entries: seq<Sealed>) {
    forall i :: 0 <= i < |entries| ==> DigestShaped(entries[i].sha256)
  }

  predicate AllValid(c: Codec, table: seq<Keyed<Artifact>>) {
    forall i :: 0 <= i < |table| ==> ArtifactValid(c, table[i].value)
  }

  /** Every digest is the digest of what it stands for, and every artifact is its descriptor's. */
  predicate Intact(c: Codec, d: Data) {
    && |d.entries| <= MAX_ENTRIES
    && AllShaped(d.entries) && Chain(c, d.entries)
    && d.entriesSha256 == PreviousDigest(d.entries, |d.entries|)
    && AllValid(c, d.artifacts)
    && DigestShaped(d.finalSha256) && FinalDigest(c, d) == Some(d.finalSha256)
  }

  /** Everything `verifyAutomationRecording` requires of a recording's body. */
  predicate Verifies(c: Codec, d: Data, requireComplete: bool) {
    Presentable(d) && Intact(c, d) && (requireComplete ==> d.complete && NothingMissing(d.entries, d.artifacts))
  }

  // ---- Building a recording ----

  function Create(recordingId: Text, generation: Text, provider: Json): Data {
    Data(recordingId, generation, provider, [], [], ZERO_DIGEST, [], true)
  }

  /** The recording after an append, or None where the append throws and changes nothing. */
  function AppendTo(c: Codec, d: Data, e: Entry): Option<Data> {
    if |d.entries| >= MAX_ENTRIES || !e.input.Obj? then None
    else
      match EntryDigest(c, e, |d.entries|, d.entriesSha256)
      case None => None
      case Some(digest) =>
        Some(d.(entries := d.entries + [Sealed(e, |d.entries|, d.entriesSha256, digest)], entriesSha256 := digest))
  }

  predicate SameArtifact(a: Artifact, b: Artifact) {
    a.sha256 == b.sha256 && a.byteLength == b.byteLength && a.mimeType == b.mimeType && a.kind == b.kind
  }

  /** The recording after an artifact is put, or None where the put throws and changes nothing. */
  function PutInto(c: Codec, d: Data, ref: Text, a: Artifact): Option<Data> {
    if !RefShaped(ref) || !ArtifactValid(c, a) then None
    else
      match Find(d.artifacts, ref)
      case Some(prior) =>
        if SameArtifact(prior, a) then Some(d.(artifacts := Assign(d.artifacts, ref, a))) else None
      case None => Some(d.(artifacts := Assign(d.artifacts, ref, a)))
  }

  function Marked(d: Data): Data {
    Data(d.recordingId, d.generation, d.provider, d.entries, d.artifacts, d.entriesSha256, d.finalSha256,
         NothingMissing(d.entries, d.artifacts))
  }

  /** The sealed recording, or None where the final digest cannot be taken. */
  function SealOf(c: Codec, d: Data): Option<Data> {
    match FinalDigest(c, Marked(d))
    case Some(digest) => Some(Marked(d).(finalSha256 := digest))
    case None => None
  }
}
