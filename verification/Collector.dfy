/** Putting an artifact back together from the chunks a recorded session happened to read. */
module Collector {
  import opened Text
  import opened Members
  import opened Options
  import opened Recording
  import opened ArtifactStore

  const MAX_PENDING := MAX_TOTAL_ARTIFACT_BYTES

  /** An artifact read in part: its chunks so far and the identity its first chunk gave. */
  datatype Partial = Partial(chunks: seq<Bytes>, nextOffset: int, byteLength: int, sha256: Text, mimeType: Text)

  datatype Pending = Pending(partials: seq<Keyed<Partial>>, bytes: int)

  function Concat(chunks: seq<Bytes>): Bytes {
    if chunks == [] then [] else Concat(chunks[..|chunks| - 1]) + chunks[|chunks| - 1]
  }

  function Offsets(partials: seq<Keyed<Partial>>): int {
    if partials == [] then 0 else partials[0].value.nextOffset + Offsets(partials[1..])
  }

  lemma {:induction false} OffsetsAssigned(partials: seq<Keyed<Partial>>, ref: Text, p: Partial)
    ensures Offsets(Assign(partials, ref, p))
         == Offsets(partials) + p.nextOffset
            - if Find(partials, ref).Some? then Find(partials, ref).value.nextOffset else 0
  {
    if partials != [] && partials[0].key != ref {
      OffsetsAssigned(partials[1..], ref, p);
      assert ([partials[0]] + Assign(partials[1..], ref, p))[1..] == Assign(partials[1..], ref, p);
    } else if partials != [] {
      assert ([Keyed(ref, p)] + partials[1..])[1..] == partials[1..];
    }
  }

  lemma {:induction false} OffsetsErased(partials: seq<Keyed<Partial>>, ref: Text)
    ensures Offsets(Erase(partials, ref))
         == Offsets(partials) - if Find(partials, ref).Some? then Find(partials, ref).value.nextOffset else 0
  {
    if partials != [] && partials[0].key != ref {
      OffsetsErased(partials[1..], ref);
      assert ([partials[0]] + Erase(partials[1..], ref))[1..] == Erase(partials[1..], ref);
    }
  }

  /** The partial a chunk continues, or a new one where the chunk starts the artifact again. */
  function Continued(st: Pending, r: ChunkRead): Partial {
    var prior := Find(st.partials, r.artifactRef);
    if prior.None? || r.offset == 0 then Partial([], 0, r.byteLength, r.sha256, r.mimeType) else prior.value
  }

  /** What a restart gives back to the pending byte counter. */
  function GivenBack(st: Pending, r: ChunkRead): int {
    var prior := Find(st.partials, r.artifactRef);
    if prior.Some? && r.offset == 0 then prior.value.nextOffset else 0
  }

  function Extended(c: Codec, p: Partial, r: ChunkRead): Partial {
    p.(chunks := p.chunks + [c.decode(r.data)], nextOffset := p.nextOffset + |c.decode(r.data)|)
  }

  /** The chunk is one the collector takes: well formed, next in line, of the same artifact, and within the limit. */
  predicate Takes(c: Codec, st: Pending, r: ChunkRead) {
    var bytes, p := c.decode(r.data), Continued(st, r);
    && RefShaped(r.artifactRef)
    && 1 <= r.byteLength <= MAX_ARTIFACT_BYTES && r.nextOffset <= r.byteLength
    && c.encode(bytes) == r.data && r.nextOffset == r.offset + |bytes|
    && r.offset == p.nextOffset
    && p.byteLength == r.byteLength && p.sha256 == r.sha256 && p.mimeType == r.mimeType
    && st.bytes - GivenBack(st, r) + |bytes| <= MAX_PENDING
  }

  function Rebuilt(c: Codec, r: ChunkRead, bytes: Bytes): Artifact {
    Artifact(Ascii("screenshot"), r.mimeType, |bytes|, r.sha256, Inline(c.encode(bytes)))
  }

  /** The collector and the recording after a chunk, or None where collecting throws. */
  function Collect(c: Codec, st: Pending, d: Data, r: ChunkRead): Option<(Pending, Data)> {
    if !Takes(c, st, r) then None
    else
      var p := Extended(c, Continued(st, r), r);
      var taken := st.bytes - GivenBack(st, r) + |c.decode(r.data)|;
      if !r.eof then Some((Pending(Assign(st.partials, r.artifactRef, p), taken), d))
      else
        var whole := Concat(p.chunks);
        if |whole| != r.byteLength || c.byteDigest(whole) != r.sha256 then None
        else
          match PutInto(c, d, r.artifactRef, Rebuilt(c, r, whole))
          case None => None
          case Some(next) =>
            Some((Pending(Erase(Assign(st.partials, r.artifactRef, p), r.artifactRef), taken - p.nextOffset), next))
  }

  /** The counter is the sum of the partial offsets, each of which is the length of what was collected. */
  ghost predicate Counted(st: Pending) {
    && Distinct(st.partials) && st.bytes == Offsets(st.partials)
    && forall i :: 0 <= i < |st.partials| ==> PartialCounted(st.partials[i].value)
  }

  ghost predicate PartialCounted(p: Partial) { p.nextOffset == |Concat(p.chunks)| }

  lemma {:induction false} ExtendedCounted(c: Codec, p: Partial, r: ChunkRead)
    requires PartialCounted(p)
    ensures PartialCounted(Extended(c, p, r))
    ensures Concat(Extended(c, p, r).chunks) == Concat(p.chunks) + c.decode(r.data)
  {
    var chunks := p.chunks + [c.decode(r.data)];
    assert chunks[..|chunks| - 1] == p.chunks;
  }

  lemma {:induction false} ContinuedCounted(st: Pending, r: ChunkRead)
    requires Counted(st)
    ensures PartialCounted(Continued(st, r))
    ensures Continued(st, r).nextOffset + GivenBack(st, r)
         == if Find(st.partials, r.artifactRef).Some? then Find(st.partials, r.artifactRef).value.nextOffset else 0
  {
    if Find(st.partials, r.artifactRef).Some? { var i := FoundIndex(st.partials, r.artifactRef); }
  }

  /** Every chunk the collector accepts, a restart from the beginning included, keeps the counter exact. */
  lemma {:induction false} CollectCounts(c: Codec, st: Pending, d: Data, r: ChunkRead)
    requires Counted(st) && Collect(c, st, d, r).Some?
    ensures Counted(Collect(c, st, d, r).value.0)
    ensures r.eof ==> Find(Collect(c, st, d, r).value.0.partials, r.artifactRef).None?
  {
    var p := Extended(c, Continued(st, r), r);
    var ref := r.artifactRef;
    ContinuedCounted(st, r);
    ExtendedCounted(c, Continued(st, r), r);
    var partials := Assign(st.partials, ref, p);
    AssignDistinct(st.partials, ref, p);
    OffsetsAssigned(st.partials, ref, p);
    forall i | 0 <= i < |partials| ensures PartialCounted(partials[i].value) {
      assert partials[i] in partials;
      if partials[i] != Keyed(ref, p) {
        assert partials[i] in st.partials;
      }
    }
    if r.eof {
      FindAssigned(st.partials, ref, p, ref);
      OffsetsErased(partials, ref);
      EraseDistinct(partials, ref);
      FindErased(partials, ref, ref);
      var rest := Erase(partials, ref);
      forall i | 0 <= i < |rest| ensures PartialCounted(rest[i].value) {
        assert rest[i] in rest;
        assert rest[i] in partials;
      }
    }
  }

  // ---- Reading an artifact from its beginning to its end ----

  /** The store's answers to reads of these sizes, each starting where the one before ended, up to the one that reaches
      the end. */
  function ReadRun(c: Codec, ref: Text, r: Record, offset: nat, sizes: seq<nat>): seq<ChunkRead>
    requires offset <= |r.bytes|
    requires forall i :: 0 <= i < |sizes| ==> 1 <= sizes[i] <= MAX_CHUNK_BYTES
    decreases |sizes|
  {
    if sizes == [] then []
    else
      var read := ReadAt(c, ref, r, offset, sizes[0]).value;
      if read.eof then [read] else [read] + ReadRun(c, ref, r, read.nextOffset, sizes[1..])
  }

  function CollectAll(c: Codec, st: Pending, d: Data, chunks: seq<ChunkRead>): Option<(Pending, Data)>
    decreases |chunks|
  {
    if chunks == [] then Some((st, d))
    else
      match Collect(c, st, d, chunks[0])
      case None => None
      case Some((next, after)) => CollectAll(c, next, after, chunks[1..])
  }

  /** A stored image whose identity the recording does not contradict and whose bytes fit beside what is pending. */
  ghost predicate Collectable(c: Codec, st: Pending, d: Data, ref: Text, r: Record) {
    && RefShaped(ref) && 1 <= |r.bytes| <= MAX_ARTIFACT_BYTES && r.sha256 == c.byteDigest(r.bytes)
    && Ascii("image/") <= r.mimeType
    && (Find(d.artifacts, ref).Some? ==>
          SameArtifact(Find(d.artifacts, ref).value,
                       Artifact(Ascii("screenshot"), r.mimeType, |r.bytes|, r.sha256, File([]))))
    && st.bytes + |r.bytes| <= MAX_PENDING
  }

  /** The partial record of an artifact collected up to `offset`. */
  ghost predicate UpTo(st: Pending, ref: Text, r: Record, offset: nat)
    requires offset <= |r.bytes|
  {
    && Find(st.partials, ref).Some?
    && var p := Find(st.partials, ref).value;
       p.nextOffset == offset && Concat(p.chunks) == r.bytes[..offset]
       && p.byteLength == |r.bytes| && p.sha256 == r.sha256 && p.mimeType == r.mimeType
  }

  /** What is pending besides one artifact. */
  ghost function Others(st: Pending, ref: Text): int {
    st.bytes - if Find(st.partials, ref).Some? then Find(st.partials, ref).value.nextOffset else 0
  }

  /** One read, fed to a collector that stands where the read starts. */
  lemma {:induction false} CollectsRead(c: Codec, st: Pending, d: Data, ref: Text, r: Record, offset: nat, size: nat)
    requires Lawful(c) && Counted(st) && offset < |r.bytes| && 1 <= size <= MAX_CHUNK_BYTES
    requires Collectable(c, Pending(st.partials, Others(st, ref)), d, ref, r)
    requires offset == 0 || UpTo(st, ref, r, offset)
    ensures var read := ReadAt(c, ref, r, offset, size).value;
      && Collect(c, st, d, read).Some?
      && (var (next, after) := Collect(c, st, d, read).value;
          && Counted(next) && Others(next, ref) == Others(st, ref)
          && (!read.eof ==> after == d && UpTo(next, ref, r, read.nextOffset))
          && (read.eof ==>
                Find(next.partials, ref).None? && PutInto(c, d, ref, Rebuilt(c, read, r.bytes)) == Some(after)))
  {
    var read := ReadAt(c, ref, r, offset, size).value;
    var bytes := r.bytes[offset..read.nextOffset];
    assert c.decode(read.data) == bytes;
    ContinuedCounted(st, read);
    var p := Extended(c, Continued(st, read), read);
    ExtendedCounted(c, Continued(st, read), read);
    assert r.bytes[..offset] + bytes == r.bytes[..read.nextOffset];
    assert Concat(Continued(st, read).chunks) == r.bytes[..offset];
    assert Takes(c, st, read);
    FindAssigned(st.partials, ref, p, ref);
    if read.eof {
      assert r.bytes[..read.nextOffset] == r.bytes;
      RebuiltPuts(c, d, ref, r, read);
    }
    CollectCounts(c, st, d, read);
  }

  lemma {:induction false} RebuiltPuts(c: Codec, d: Data, ref: Text, r: Record, read: ChunkRead)
    requires Lawful(c) && RefShaped(ref) && 1 <= |r.bytes| <= MAX_ARTIFACT_BYTES && r.sha256 == c.byteDigest(r.bytes)
    requires Ascii("image/") <= r.mimeType && read.mimeType == r.mimeType && read.sha256 == r.sha256
    requires Find(d.artifacts, ref).Some? ==>
      SameArtifact(Find(d.artifacts, ref).value,
                   Artifact(Ascii("screenshot"), r.mimeType, |r.bytes|, r.sha256, File([])))
    ensures PutInto(c, d, ref, Rebuilt(c, read, r.bytes)).Some?
  {
    assert ArtifactValid(c, Rebuilt(c, read, r.bytes));
  }

  /** Reading an image from offset 0 in any legal chunk sizes until the end of the file rebuilds exactly the stored
      bytes in the recording, whatever was pending before, an earlier partial read of the same artifact included, and
      leaves the rest of what is pending as it was. */
  lemma {:induction false} ReadsRebuild(c: Codec, st: Pending, d: Data, ref: Text, r: Record, sizes: seq<nat>)
    requires Lawful(c) && Counted(st)
    requires forall i :: 0 <= i < |sizes| ==> 1 <= sizes[i] <= MAX_CHUNK_BYTES
    requires Collectable(c, Pending(st.partials, Others(st, ref)), d, ref, r)
    requires var chunks := ReadRun(c, ref, r, 0, sizes); chunks != [] && chunks[|chunks| - 1].eof
    ensures var done := CollectAll(c, st, d, ReadRun(c, ref, r, 0, sizes));
      && done.Some? && Counted(done.value.0)
      && Find(done.value.0.partials, ref).None? && done.value.0.bytes == Others(st, ref)
      && Find(done.value.1.artifacts, ref)
         == Some(Artifact(Ascii("screenshot"), r.mimeType, |r.bytes|, r.sha256, Inline(c.encode(r.bytes))))
  {
    RunRebuilds(c, st, d, ref, r, 0, sizes);
  }

  lemma {:induction false} RunRebuilds(c: Codec, st: Pending, d: Data, ref: Text, r: Record, offset: nat,
                                       sizes: seq<nat>)
    requires Lawful(c) && Counted(st) && offset < |r.bytes|
    requires forall i :: 0 <= i < |sizes| ==> 1 <= sizes[i] <= MAX_CHUNK_BYTES
    requires Collectable(c, Pending(st.partials, Others(st, ref)), d, ref, r)
    requires offset == 0 || UpTo(st, ref, r, offset)
    requires var chunks := ReadRun(c, ref, r, offset, sizes); chunks != [] && chunks[|chunks| - 1].eof
    ensures var done := CollectAll(c, st, d, ReadRun(c, ref, r, offset, sizes));
      && done.Some? && Counted(done.value.0)
      && Find(done.value.0.partials, ref).None? && done.value.0.bytes == Others(st, ref)
      && Find(done.value.1.artifacts, ref)
         == Some(Artifact(Ascii("screenshot"), r.mimeType, |r.bytes|, r.sha256, Inline(c.encode(r.bytes))))
    decreases |sizes|
  {
    var chunks := ReadRun(c, ref, r, offset, sizes);
    var read := ReadAt(c, ref, r, offset, sizes[0]).value;
    CollectsRead(c, st, d, ref, r, offset, sizes[0]);
    var (next, after) := Collect(c, st, d, read).value;
    if read.eof {
      assert chunks[1..] == [];
      FindAssigned(d.artifacts, ref, Rebuilt(c, read, r.bytes), ref);
    } else {
      assert chunks[1..] == ReadRun(c, ref, r, read.nextOffset, sizes[1..]);
      RunRebuilds(c, next, d, ref, r, read.nextOffset, sizes[1..]);
    }
  }

  // ---- What replay gives back for each read ----

  /** The read is a stretch of these bytes, at the offsets it names. */
  ghost predicate Stretch(c: Codec, bytes: Bytes, read: ChunkRead) {
    0 <= read.offset <= read.nextOffset <= |bytes| && read.data == c.encode(bytes[read.offset..read.nextOffset])
  }

  lemma {:induction false} RunIsStretches(c: Codec, ref: Text, r: Record, offset: nat, sizes: seq<nat>, i: nat)
    requires forall j :: 0 <= j < |sizes| ==> 1 <= sizes[j] <= MAX_CHUNK_BYTES
    requires offset <= |r.bytes| && i < |ReadRun(c, ref, r, offset, sizes)|
    ensures ReadRun(c, ref, r, offset, sizes)[i].artifactRef == ref
    ensures Stretch(c, r.bytes, ReadRun(c, ref, r, offset, sizes)[i])
    decreases |sizes|
  {
    var read := ReadAt(c, ref, r, offset, sizes[0]).value;
    if i > 0 {
      assert ReadRun(c, ref, r, offset, sizes)[1..] == ReadRun(c, ref, r, read.nextOffset, sizes[1..]);
      RunIsStretches(c, ref, r, read.nextOffset, sizes[1..], i - 1);
    }
  }
}
