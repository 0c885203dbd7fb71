/** Recording a session and replaying it: what a recorded run gives back when the same operations are fed to a replay.
    */
module RecordReplay {
  import opened Text
  import opened Members
  import opened Options
  import opened Json
  import opened JsonLaws
  import opened Recording
  import opened RecordingLaws
  import opened Artifacts
  import opened ArtifactStore
  import opened Collector

  // ---- Errors ----

  /** A provider's error, its details already gathered. */
  datatype Thrown = Thrown(code: Option<Text>, message: Text, outcome: Option<Outcome>, retryable: bool,
                           details: Option<Json>)

  const INTERNAL: Text := Ascii("PYPROC_INTERNAL")
  const MESSAGE_LIMIT := 2000

  /** `canonicalControlError` */
  function CanonicalError(e: Thrown): RecordedError {
    var outcome := if e.outcome.Some? then e.outcome.value else NotSent;
    RecordedError(if e.code.Some? && e.code.value != [] then e.code.value else INTERNAL,
                  if |e.message| > MESSAGE_LIMIT then e.message[|e.message| - MESSAGE_LIMIT..] else e.message,
                  outcome, e.retryable && !outcome.Applied? && !outcome.OutcomeUnknown?, e.details)
  }

  /** The error a replay throws for a recorded one. */
  function ReplayedError(r: RecordedError): Thrown {
    Thrown(Some(r.code), r.message, Some(r.outcome),
           r.retryable && !r.outcome.Applied? && !r.outcome.OutcomeUnknown?, r.details)
  }

  /** A replayed error is canonically the error that was recorded. */
  lemma {:induction false} ErrorsReplay(e: Thrown)
    ensures CanonicalError(ReplayedError(CanonicalError(e))) == CanonicalError(e)
  {
    assert INTERNAL != [];
  }

  // ---- Recording one operation ----

  datatype Response = Output(value: Json) | Failure(error: Thrown)

  /** One recorded operation: its cleaned input and what the provider answered. */
  datatype Call = Call(operation: Text, input: Json, response: Response)

  /** The references of the screenshots an output carries whole, in the order they are met. */
  function InlineRefs(v: Json): seq<Text> {
    match v
    case Arr(items) => ItemInlineRefs(items)
    case Obj(members) => MemberInlineRefs(members, members)
    case _ => []
  }

  function ItemInlineRefs(items: seq<Json>): seq<Text> {
    if items == [] then [] else InlineRefs(items[0]) + ItemInlineRefs(items[1..])
  }

  /** The object's members still to visit, of an object whose members are `all`. */
  function MemberInlineRefs(rest: seq<Keyed<Json>>, all: seq<Keyed<Json>>): seq<Text> {
    if rest == [] then []
    else if Drops(all) && rest[0].key == DATA then
      (if Screenshot(all) then [Find(all, ARTIFACT_REF).value.s] else []) + MemberInlineRefs(rest[1..], all)
    else InlineRefs(rest[0].value) + MemberInlineRefs(rest[1..], all)
  }

  /** Every artifact an output describes or carries part of. */
  function CopiedRefs(v: Json): seq<Text> {
    match v
    case Arr(items) => ItemCopiedRefs(items)
    case Obj(members) =>
      (if Screenshot(members) || Chunk(members) then [Find(members, ARTIFACT_REF).value.s] else [])
      + MemberCopiedRefs(members, Drops(members))
    case _ => []
  }

  function ItemCopiedRefs(items: seq<Json>): seq<Text> {
    if items == [] then [] else CopiedRefs(items[0]) + ItemCopiedRefs(items[1..])
  }

  function MemberCopiedRefs(members: seq<Keyed<Json>>, drop: bool): seq<Text> {
    if members == [] then []
    else
      (if drop && members[0].key == DATA then [] else CopiedRefs(members[0].value))
      + MemberCopiedRefs(members[1..], drop)
  }

  function Unique(texts: seq<Text>): (r: seq<Text>)
    ensures forall t :: t in r <==> t in texts
  {
    if texts == [] then []
    else
      var rest := Unique(texts[..|texts| - 1]);
      if texts[|texts| - 1] in rest then rest else rest + [texts[|texts| - 1]]
  }

  function TextOf(v: Option<Json>): Text { if IsString(v) then v.value.s else [] }

  function LengthOf(v: Option<Json>): nat { if IsInteger(v) && v.value.n >= 0 then v.value.n else 0 }

  /** What a screenshot object says of its artifact, with its bytes. */
  function Described(members: seq<Keyed<Json>>): Artifact {
    Artifact(Ascii("screenshot"), TextOf(Find(members, Ascii("mimeType"))),
             LengthOf(Find(members, Ascii("byteLength"))), TextOf(Find(members, Ascii("sha256"))),
             Inline(TextOf(Find(members, DATA))))
  }

  /** The artifacts an output carries whole, in the order they are put into the recording. */
  function Carried(v: Json): seq<Keyed<Artifact>> {
    match v
    case Arr(items) => ItemsCarried(items)
    case Obj(members) => MembersCarried(members, members)
    case _ => []
  }

  function ItemsCarried(items: seq<Json>): seq<Keyed<Artifact>> {
    if items == [] then [] else Carried(items[0]) + ItemsCarried(items[1..])
  }

  function MembersCarried(rest: seq<Keyed<Json>>, all: seq<Keyed<Json>>): seq<Keyed<Artifact>> {
    if rest == [] then []
    else if Drops(all) && rest[0].key == DATA then
      (if Screenshot(all) then [Keyed(Find(all, ARTIFACT_REF).value.s, Described(all))] else [])
      + MembersCarried(rest[1..], all)
    else Carried(rest[0].value) + MembersCarried(rest[1..], all)
  }

  function PutAll(c: Codec, d: Data, artifacts: seq<Keyed<Artifact>>): Option<Data>
    decreases |artifacts|
  {
    if artifacts == [] then Some(d)
    else
      match PutInto(c, d, artifacts[0].key, artifacts[0].value)
      case None => None
      case Some(next) => PutAll(c, next, artifacts[1..])
  }

  predicate IsBool(v: Option<Json>) { v.Some? && v.value.Bool? }

  /** The chunk an `artifact.read` answer is, if it is one. */
  function ChunkOf(v: Json): Option<ChunkRead> {
    if v.Obj? && Chunk(v.members)
       && IsString(Find(v.members, Ascii("sha256"))) && IsString(Find(v.members, Ascii("mimeType")))
       && IsInteger(Find(v.members, Ascii("byteLength"))) && IsBool(Find(v.members, Ascii("eof")))
    then
      Some(ChunkRead(Find(v.members, ARTIFACT_REF).value.s, Find(v.members, Ascii("mimeType")).value.s,
                     Find(v.members, Ascii("byteLength")).value.n, Find(v.members, Ascii("sha256")).value.s,
                     Find(v.members, OFFSET).value.n, Find(v.members, NEXT_OFFSET).value.n,
                     Find(v.members, Ascii("eof")).value.b, Find(v.members, DATA).value.s))
    else None
  }

  /** The recording space between operations. */
  datatype Space = Space(data: Data, pending: Pending)

  function CollectOutput(c: Codec, s: Space, operation: Text, v: Json): Option<Space> {
    if operation != ARTIFACT_READ then Some(s)
    else
      match ChunkOf(v)
      case None => None
      case Some(chunk) =>
        match Collect(c, s.pending, s.data, chunk)
        case None => None
        case Some((pending, data)) => Some(Space(data, pending))
  }

  function TerminalOf(r: Response): Terminal {
    match r
    case Output(v) => Succeeded(Strip(v))
    case Failure(e) => Failed(CanonicalError(e))
  }

  /** The entry an operation leaves behind. */
  function EntryOf(call: Call): Entry {
    match call.response
    case Output(v) =>
      Entry(call.operation, call.input, TerminalOf(call.response), Unique(InlineRefs(v)), Unique(CopiedRefs(v)))
    case Failure(_) => Entry(call.operation, call.input, TerminalOf(call.response), [], [])
  }

  /** Everything an operation does to the recording before it is written. */
  function Prepare(c: Codec, s: Space, call: Call): Option<Space> {
    match call.response
    case Failure(_) =>
      (match AppendTo(c, s.data, EntryOf(call))
       case None => None
       case Some(data) => Some(s.(data := data)))
    case Output(v) =>
      match CollectOutput(c, s, call.operation, v)
      case None => None
      case Some(collected) =>
        match PutAll(c, collected.data, Carried(v))
        case None => None
        case Some(put) =>
          match AppendTo(c, put, EntryOf(call))
          case None => None
          case Some(data) => Some(collected.(data := data))
  }

  /** The recording as it is written: sealed, and verified without yet requiring every artifact. */
  function Persisted(c: Codec, d: Data): Option<Data> {
    match SealOf(c, d)
    case None => None
    case Some(sealed) => if Verifies(c, sealed, false) then Some(sealed) else None
  }

  /** The space after an operation whose terminal is committed; None where any of it throws and the space is
      unavailable from then on. */
  function RecordStep(c: Codec, s: Space, call: Call): Option<Space> {
    match Prepare(c, s, call)
    case None => None
    case Some(prepared) =>
      match Persisted(c, prepared.data)
      case None => None
      case Some(written) => Some(prepared.(data := written))
  }

  function RecordAll(c: Codec, s: Space, calls: seq<Call>): Option<Space>
    decreases |calls|
  {
    if calls == [] then Some(s)
    else
      match RecordStep(c, s, calls[0])
      case None => None
      case Some(next) => RecordAll(c, next, calls[1..])
  }

  function Fresh(recordingId: Text, generation: Text, provider: Json): Space {
    Space(Create(recordingId, generation, provider), Pending([], 0))
  }

  // ---- Replaying one operation ----

  /** The bytes the recording's table holds; an artifact whose bytes are in a sidecar file is not among them. */
  function TableBytes(c: Codec, table: seq<Keyed<Artifact>>): map<Text, Bytes> {
    if table == [] then map[]
    else if table[0].value.source.Inline? then
      TableBytes(c, table[1..])[table[0].key := c.decode(table[0].value.source.dataBase64)]
    else TableBytes(c, table[1..])
  }

  datatype Answer = Returned(value: Json) | Threw(error: Thrown)

  datatype Refusal = Exhausted | Diverged | NotJson | ArtifactUnavailable

  datatype Step = Answered(answer: Answer, cursor: nat) | Refused(reason: Refusal)

  function InputDigest(c: Codec, input: Json): Option<Text> {
    match CanonicalText(input)
    case Some(text) => Some(c.textDigest(text))
    case None => None
  }

  function VaultOf(c: Codec, d: Data, e: Entry): Vault {
    Vault(e.operation, (set r | r in e.inlineArtifacts), TableBytes(c, d.artifacts), c.encode)
  }

  /** Authorizing and executing one operation at the cursor; a refusal leaves the cursor where it is. */
  function ReplayStep(c: Codec, d: Data, cursor: nat, operation: Text, input: Json): Step {
    if cursor >= |d.entries| then Refused(Exhausted)
    else
      var e := d.entries[cursor].entry;
      if e.operation != operation then Refused(Diverged)
      else if InputDigest(c, input).None? || InputDigest(c, e.input).None? then Refused(NotJson)
      else if InputDigest(c, input) != InputDigest(c, e.input) then Refused(Diverged)
      else
        match e.terminal
        case Failed(error) => Answered(Threw(ReplayedError(error)), cursor + 1)
        case Succeeded(output) =>
          match Rehydrate(VaultOf(c, d, e), output)
          case Some(v) => Answered(Returned(v), cursor + 1)
          case None => Refused(ArtifactUnavailable)
  }
}
