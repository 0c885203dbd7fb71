/** The two spaces as the code keeps them: a recording space that stops at its first failed commit, and a replay space
    with its cursor and single-use authorities. */
module Spaces {
  import opened Text
  import opened Members
  import opened Options
  import opened Json
  import opened Recording
  import opened RecordingLaws
  import opened Recorder
  import opened Artifacts
  import opened Collector
  import opened RecordReplay

  const INSPECT: Text := Ascii("automation.space.inspect")
  const BIND_SECRET: Text := Ascii("automation.secret.bind")

  // ---- RecordingSpace ----

  datatype Recorded = Passed(response: Response) | WriteFailed(outcome: Outcome) | Unavailable

  /** What an operation whose commit fails is reported as: a failed operation keeps its own outcome, a successful one
      becomes unknown. */
  function WriteFailureOutcome(r: Response): Outcome {
    match r
    case Output(_) => OutcomeUnknown
    case Failure(e) => CanonicalError(e).outcome
  }

  /** What an inspection says of the recording: what is committed so far, and the digest that pins it. */
  function RecordingStatus(d: Data): Json {
    Obj([Field("mode", Str(Ascii("record"))), Field("recordingId", Str(d.recordingId)),
         Field("entries", Int(|d.entries|)), Field("artifacts", Int(|d.artifacts|)),
         Field("complete", Bool(d.complete)), Field("prefixSha256", Str(d.entriesSha256)),
         Field("finalSha256", Str(d.finalSha256))])
  }

  /** The provider's inspection with the recording's status set in it. */
  function Inspected(r: Response, d: Data): Response {
    match r
    case Failure(_) => r
    case Output(v) =>
      var members := if v.Obj? then v.members else [];
      Output(Obj(Assign(members, Ascii("recording"), RecordingStatus(d))))
  }

  class RecordingSpace {
    const recorder: RecordingState
    var pending: Pending
    var closed: bool
    var fatal: bool

    function View(): Space
      reads this, recorder
    {
      Space(recorder.View(), pending)
    }

    constructor (codec: Codec, recordingId: Text, generation: Text, provider: Json)
      ensures View() == Fresh(recordingId, generation, provider) && !closed && !fatal
      ensures fresh(recorder) && recorder.codec == codec
    {
      recorder := new RecordingState(codec, recordingId, generation, provider);
      pending, closed, fatal := Pending([], 0), false, false;
    }

    /** Runs what the provider answered through the recording. `written` says whether the file write succeeds. Nothing
        is recorded of an inspection, whose answer gains the status of the recording, or of a secret binding; any other
        answer reaches the caller only once its entry is committed, and after the first failed commit every operation is
        refused. */
    method Execute(call: Call, written: bool) returns (r: Recorded)
      modifies this`pending, this`fatal, recorder
      ensures closed == old(closed)
      ensures old(closed || fatal) ==> r == Unavailable && View() == old(View()) && fatal == old(fatal)
      ensures !old(closed || fatal) && call.operation == BIND_SECRET ==>
        r == Passed(call.response) && View() == old(View()) && !fatal
      ensures !old(closed || fatal) && call.operation == INSPECT ==>
        r == Passed(Inspected(call.response, old(View()).data)) && View() == old(View()) && !fatal
      ensures !old(closed || fatal) && call.operation != INSPECT && call.operation != BIND_SECRET ==>
        if written && RecordStep(recorder.codec, old(View()), call).Some?
        then r == Passed(call.response) && View() == RecordStep(recorder.codec, old(View()), call).value && !fatal
        else r == WriteFailed(WriteFailureOutcome(call.response)) && fatal
    {
      if closed || fatal { return Unavailable; }
      assert INSPECT != BIND_SECRET by { assert |INSPECT| != |BIND_SECRET|; }
      if call.operation == BIND_SECRET { return Passed(call.response); }
      if call.operation == INSPECT { return Passed(Inspected(call.response, recorder.View())); }
      ghost var step := RecordStep(recorder.codec, View(), call);
      r := Record(call, written, step);
    }

    /** The answer passes only if the call's entry is committed and written; otherwise the space is lost. */
    method Record(call: Call, written: bool, ghost step: Option<Space>) returns (r: Recorded)
      requires step == RecordStep(recorder.codec, View(), call)
      modifies this`pending, this`fatal, recorder
      ensures if written && step.Some? then r == Passed(call.response) && View() == step.value && fatal == old(fatal)
              else r == WriteFailed(WriteFailureOutcome(call.response)) && fatal
    {
      var ok := Commit(call);
      if !ok || !written {
        fatal := true;
        return WriteFailed(WriteFailureOutcome(call.response));
      }
      return Passed(call.response);
    }

    /** Prepares, seals and verifies, in that order, stopping at the first step that throws. */
    method Commit(call: Call) returns (ok: bool)
      modifies this`pending, recorder
      ensures var prepared := Prepare(recorder.codec, old(View()), call);
        && ok == (prepared.Some? && Persisted(recorder.codec, prepared.value.data).Some?)
        && (ok ==> View() == prepared.value.(data := Persisted(recorder.codec, prepared.value.data).value))
    {
      ok := PrepareCall(call);
      if !ok { return; }
      ok := Persist();
    }

    method Persist() returns (ok: bool)
      modifies recorder
      ensures var written := Persisted(recorder.codec, old(recorder.View()));
        ok == written.Some? && (ok ==> recorder.View() == written.value)
    {
      ok := recorder.Seal();
      if !ok { return; }
      ok := Verify(recorder.codec, recorder.View(), false);
    }

    /** Collects, copies and appends, in that order. */
    method PrepareCall(call: Call) returns (ok: bool)
      modifies this`pending, recorder
      ensures var prepared := Prepare(recorder.codec, old(View()), call);
        ok == prepared.Some? && (ok ==> View() == prepared.value)
    {
      if call.response.Output? {
        ok := Take(call.operation, call.response.value);
        if !ok { return; }
      }
      ok := recorder.Append(EntryOf(call));
    }

    /** Everything an output adds before its entry: the chunk it is, then the artifacts it carries. */
    method Take(operation: Text, v: Json) returns (ok: bool)
      modifies this`pending, recorder
      ensures var collected := CollectOutput(recorder.codec, old(View()), operation, v);
        && ok == (collected.Some? && PutAll(recorder.codec, collected.value.data, Carried(v)).Some?)
        && (ok ==>
              View() == Space(PutAll(recorder.codec, collected.value.data, Carried(v)).value, collected.value.pending))
    {
      if operation == ARTIFACT_READ {
        var chunk := ChunkOf(v);
        if chunk.None? { return false; }
        ok := CollectChunk(chunk.value);
        if !ok { return; }
      }
      ok := PutCarried(Carried(v));
    }

    /** Takes a chunk in line, then, at the end of the artifact, moves the whole to the table. */
    method CollectChunk(r: ArtifactStore.ChunkRead) returns (ok: bool)
      modifies this`pending, recorder
      ensures var done := Collect(recorder.codec, old(pending), old(recorder.View()), r);
        ok == done.Some? && (ok ==> pending == done.value.0 && recorder.View() == done.value.1)
    {
      if !Takes(recorder.codec, pending, r) { return false; }
      var p := Extended(recorder.codec, Continued(pending, r), r);
      var taken := pending.bytes - GivenBack(pending, r) + |recorder.codec.decode(r.data)|;
      pending := Pending(Assign(pending.partials, r.artifactRef, p), taken);
      if !r.eof { return true; }
      ok := Finish(r, p);
    }

    method Finish(r: ArtifactStore.ChunkRead, p: Partial) returns (ok: bool)
      modifies this`pending, recorder
      ensures var whole := Concat(p.chunks);
        && ok == (&& |whole| == r.byteLength && recorder.codec.byteDigest(whole) == r.sha256
                  && PutInto(recorder.codec, old(recorder.View()), r.artifactRef,
                             Rebuilt(recorder.codec, r, whole)).Some?)
        && (ok ==> recorder.View() == PutInto(recorder.codec, old(recorder.View()), r.artifactRef,
                                              Rebuilt(recorder.codec, r, whole)).value)
      ensures pending == Pending(Erase(old(pending).partials, r.artifactRef), old(pending).bytes - p.nextOffset)
    {
      pending := Pending(Erase(pending.partials, r.artifactRef), pending.bytes - p.nextOffset);
      var whole := Concat(p.chunks);
      if |whole| != r.byteLength || recorder.codec.byteDigest(whole) != r.sha256 { return false; }
      ok := recorder.Put(r.artifactRef, Rebuilt(recorder.codec, r, whole));
    }

    method PutCarried(artifacts: seq<Keyed<Artifact>>) returns (ok: bool)
      modifies recorder
      ensures ok == PutAll(recorder.codec, old(recorder.View()), artifacts).Some?
      ensures ok ==> recorder.View() == PutAll(recorder.codec, old(recorder.View()), artifacts).value
    {
      for i := 0 to |artifacts|
        invariant PutAll(recorder.codec, recorder.View(), artifacts[i..])
               == PutAll(recorder.codec, old(recorder.View()), artifacts)
      {
        assert artifacts[i..][1..] == artifacts[i + 1..];
        ok := recorder.Put(artifacts[i].key, artifacts[i].value);
        if !ok { return; }
      }
      ok := true;
    }
  }

  // ---- ReplaySpace ----

  datatype Place = Place(sequence: nat, entrySha256: Text)

  /** A single-use permission to execute the entry it was issued for, or to inspect. */
  datatype Authority = Authority(id: nat, operation: Text, place: Option<Place>)

  /** What a replay says of itself. */
  function ReplayStatus(d: Data, cursor: nat): Json
    requires cursor <= |d.entries|
  {
    var members := if d.provider.Obj? then d.provider.members else [];
    var kind := Find(members, Ascii("providerKind"));
    Obj([Field("transport", Str(Ascii("recording"))),
         Field("sourceProviderKind", if kind.Some? then kind.value else Unprintable),
         Field("recording",
               Obj([Field("mode", Str(Ascii("replay"))), Field("recordingId", Str(d.recordingId)),
                    Field("cursor", Int(cursor)), Field("entryCount", Int(|d.entries|)),
                    Field("remaining", Int(|d.entries| - cursor)),
                    Field("prefixSha256", Str(PreviousDigest(d.entries, cursor))),
                    Field("finalSha256", Str(d.finalSha256))]))])
  }

  datatype ReplayError = SpaceClosed | AuthorityInvalid | CursorStale | CursorInvalid | CheckpointInvalid
                       | Refusal(reason: RecordReplay.Refusal)

  datatype Result<+T> = Ok(value: T) | Err(error: ReplayError)

  datatype Checkpoint = Checkpoint(recordingId: Text, cursor: int, prefixSha256: Option<Text>)

  /** Whether a replay may stand at a cursor, given the digest its history is pinned to. */
  predicate CursorAccepted(d: Data, cursor: int, prefix: Option<Text>) {
    && 0 <= cursor <= |d.entries|
    && PreviousDigest(d.entries, cursor) != []
    && (cursor > 0 ==> prefix.Some? && prefix.value != [])
    && (prefix.Some? ==> prefix.value == PreviousDigest(d.entries, cursor))
  }

  /** What authorizing an operation at a cursor refuses it for, if anything. */
  function AuthorizeRefusal(c: Codec, d: Data, cursor: nat, operation: Text,
                            input: Json): Option<RecordReplay.Refusal> {
    if cursor >= |d.entries| then Some(Exhausted)
    else
      var e := d.entries[cursor].entry;
      if e.operation != operation then Some(Diverged)
      else if InputDigest(c, input).None? || InputDigest(c, e.input).None? then Some(NotJson)
      else if InputDigest(c, input) != InputDigest(c, e.input) then Some(Diverged)
      else None
  }

  class ReplaySpace {
    const codec: Codec
    const data: Data
    var cursor: nat
    var authorities: set<Authority>
    var issued: nat
    var closed: bool

    ghost predicate Valid()
      reads this
    {
      && cursor <= |data.entries|
      && (forall i :: 0 <= i < |data.entries| ==> data.entries[i].sequence == i)
      && forall a :: a in authorities ==> a.id < issued
    }

    constructor (codec: Codec, data: Data)
      requires Verifies(codec, data, true)
      ensures Valid() && cursor == 0 && !closed && this.codec == codec && this.data == data && authorities == {}
    {
      this.codec, this.data := codec, data;
      cursor, authorities, issued, closed := 0, {}, 0, false;
      forall i | 0 <= i < |data.entries| ensures data.entries[i].sequence == i {
        assert Linked(codec, data.entries[i], i, PreviousDigest(data.entries, i));
      }
    }

    /** Checks the operation, unless it is an inspection, against the entry at the cursor. It never moves the cursor. */
    method Authorize(operation: Text, input: Json) returns (r: Result<Authority>)
      requires Valid()
      modifies this`authorities, this`issued
      ensures Valid()
      ensures closed ==> r == Err(SpaceClosed) && authorities == old(authorities)
      ensures !closed && operation == INSPECT ==>
        && r == Ok(Authority(old(issued), operation, None))
        && r.value !in old(authorities) && authorities == old(authorities) + {r.value}
      ensures !closed && operation != INSPECT && AuthorizeRefusal(codec, data, cursor, operation, input).Some? ==>
        && r == Err(Refusal(AuthorizeRefusal(codec, data, cursor, operation, input).value))
        && authorities == old(authorities)
      ensures !closed && operation != INSPECT && AuthorizeRefusal(codec, data, cursor, operation, input).None? ==>
        && r == Ok(Authority(old(issued), operation, Some(Place(cursor, data.entries[cursor].sha256))))
        && r.value !in old(authorities) && authorities == old(authorities) + {r.value}
    {
      if closed { return Err(SpaceClosed); }
      if operation == INSPECT {
        r := Issue(operation, None);
        return;
      }
      if cursor >= |data.entries| { return Err(Refusal(Exhausted)); }
      var sealed := data.entries[cursor];
      if sealed.entry.operation != operation { return Err(Refusal(Diverged)); }
      var expected, received := InputDigest(codec, sealed.entry.input), InputDigest(codec, input);
      if expected.None? || received.None? { return Err(Refusal(NotJson)); }
      if expected != received { return Err(Refusal(Diverged)); }
      r := Issue(operation, Some(Place(sealed.sequence, sealed.sha256)));
    }

    method Issue(operation: Text, place: Option<Place>) returns (r: Result<Authority>)
      requires Valid()
      modifies this`authorities, this`issued
      ensures Valid() && r == Ok(Authority(old(issued), operation, place))
      ensures r.value !in old(authorities) && authorities == old(authorities) + {r.value}
    {
      var authority := Authority(issued, operation, place);
      issued := issued + 1;
      authorities := authorities + {authority};
      return Ok(authority);
    }

    /** Spends an authority. Only an answered terminal moves the cursor, by one; an authority issued at another cursor,
        or spent before, executes nothing; an inspection moves nothing. */
    method Execute(operation: Text, authority: Authority) returns (r: Result<Answer>)
      requires Valid()
      modifies this`authorities, this`cursor
      ensures Valid()
      ensures authority !in old(authorities) || authority.operation != operation ==>
        r == Err(AuthorityInvalid) && cursor == old(cursor) && authorities == old(authorities)
      ensures authority in old(authorities) && authority.operation == operation ==>
        authorities == old(authorities) - {authority}
      ensures r.Ok? && operation != INSPECT ==>
        cursor == old(cursor) + 1 && authority.place.Some? && authority.place.value.sequence == old(cursor)
      ensures r.Err? || operation == INSPECT ==> cursor == old(cursor)
      ensures authority in old(authorities) && authority.operation == operation == INSPECT ==>
        r == Ok(Returned(ReplayStatus(data, old(cursor))))
      ensures authority in old(authorities) && authority.operation == operation && operation != INSPECT ==>
        r == if old(cursor) >= |data.entries|
                || authority.place != Some(Place(old(cursor), data.entries[old(cursor)].sha256)) then Err(CursorStale)
             else match data.entries[old(cursor)].entry.terminal
                  case Failed(error) => Ok(Threw(ReplayedError(error)))
                  case Succeeded(output) =>
                    match Rehydrate(VaultOf(codec, data, data.entries[old(cursor)].entry).(operation := operation),
                                    output)
                    case Some(v) => Ok(Returned(v))
                    case None => Err(Refusal(ArtifactUnavailable))
    {
      if authority !in authorities || authority.operation != operation { return Err(AuthorityInvalid); }
      authorities := authorities - {authority};
      if operation == INSPECT { return Ok(Returned(ReplayStatus(data, cursor))); }
      if cursor >= |data.entries| { return Err(CursorStale); }
      var sealed := data.entries[cursor];
      if authority.place != Some(Place(cursor, sealed.sha256)) { return Err(CursorStale); }
      match sealed.entry.terminal {
        case Failed(error) =>
          cursor := cursor + 1;
          return Ok(Threw(ReplayedError(error)));
        case Succeeded(output) =>
          var inlined := set ref | ref in sealed.entry.inlineArtifacts;
          var vault := Vault(operation, inlined, TableBytes(codec, data.artifacts), codec.encode);
          var v := Rehydrate(vault, output);
          if v.None? { return Err(Refusal(ArtifactUnavailable)); }
          cursor := cursor + 1;
          return Ok(Returned(v.value));
      }
    }

    /** One linearized invocation: authorize, then execute with the authority just issued. Except for an inspection, it
        is the replay step that the refinement theorem speaks of, and a refused one leaves the cursor where it is. */
    method Invoke(operation: Text, input: Json) returns (r: Result<Answer>)
      requires Valid()
      modifies this`authorities, this`issued, this`cursor
      ensures Valid() && authorities == old(authorities)
      ensures closed ==> r == Err(SpaceClosed) && cursor == old(cursor)
      ensures !closed && operation == INSPECT ==>
        r == Ok(Returned(ReplayStatus(data, old(cursor)))) && cursor == old(cursor)
      ensures !closed && operation != INSPECT ==>
        match ReplayStep(codec, data, old(cursor), operation, input)
        case Answered(answer, next) => r == Ok(answer) && cursor == next
        case Refused(reason) => r == Err(Refusal(reason)) && cursor == old(cursor)
    {
      var a := Authorize(operation, input);
      if a.Err? { return Err(a.error); }
      r := Execute(operation, a.value);
    }

    method SetCursor(to: int, prefix: Option<Text>) returns (r: Result<nat>)
      requires Valid()
      modifies this`cursor
      ensures Valid()
      ensures r.Ok? <==> CursorAccepted(data, to, prefix)
      ensures cursor == if r.Ok? then to else old(cursor)
    {
      if !CursorAccepted(data, to, prefix) { return Err(CursorInvalid); }
      cursor := to;
      return Ok(cursor);
    }

    method MakeCheckpoint() returns (k: Checkpoint)
      requires Valid()
      ensures k == Checkpoint(data.recordingId, cursor, Some(PreviousDigest(data.entries, cursor)))
    {
      k := Checkpoint(data.recordingId, cursor, Some(PreviousDigest(data.entries, cursor)));
    }

    /** Goes back to a checkpoint of this recording whose prefix digest matches, and refuses any other. */
    method Restore(k: Checkpoint) returns (r: Result<nat>)
      requires Valid()
      modifies this`cursor
      ensures Valid()
      ensures r.Ok? <==> k.recordingId == data.recordingId && CursorAccepted(data, k.cursor, k.prefixSha256)
      ensures cursor == if r.Ok? then k.cursor else old(cursor)
    {
      if k.recordingId != data.recordingId { return Err(CheckpointInvalid); }
      r := SetCursor(k.cursor, k.prefixSha256);
    }
  }

  /** A checkpoint taken anywhere in a verified recording is accepted again: restoring it brings the same cursor back,
      so the same operations get the same answers. */
  lemma {:induction false} CheckpointAccepted(c: Codec, d: Data, cursor: nat)
    requires Verifies(c, d, true) && cursor <= |d.entries|
    ensures CursorAccepted(d, cursor, Some(PreviousDigest(d.entries, cursor)))
  {
    if cursor > 0 { assert DigestShaped(d.entries[cursor - 1].sha256); }
  }

  /** A pinned cursor fixes the consumed history: two verified recordings that accept one cursor with one prefix digest
      agree on every entry before it, unless two of those entries exhibit a digest collision. */
  lemma {:induction false} PinFixesHistory(c: Codec, a: Data, b: Data, cursor: nat, prefix: Text)
    requires RegularData(a) && RegularData(b) && Verifies(c, a, true) && Verifies(c, b, true)
    requires CursorAccepted(a, cursor, Some(prefix)) && CursorAccepted(b, cursor, Some(prefix)) && cursor > 0
    ensures Collided(c, a.entries, cursor - 1, b.entries, cursor - 1)
      || forall i :: 0 <= i < cursor ==> SameStep(a.entries[i], b.entries[i])
  {
    SharedDigestSharesHistory(c, a.entries, cursor - 1, b.entries, cursor - 1);
  }
}
