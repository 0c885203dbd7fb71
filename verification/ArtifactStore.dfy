/** The broker's artifact store: quota, expiry, and reading an artifact chunk by chunk. */
module ArtifactStore {
  import opened Text
  import opened Members
  import opened Options
  import opened Recording

  const MAX_CHUNK_BYTES := 256 * 1024

  datatype Error = Closed | Empty | TooLarge | Quota | DuplicateId | NotFound | BadOffset | BadLimit

  datatype Result<+T> = Ok(value: T) | Err(error: Error)

  /** What the store knows of an artifact, and the bytes its file holds. */
  datatype Record = Record(bytes: Bytes, kind: Text, mimeType: Text, sha256: Text, expiresAt: int)

  /** One answer to a read. */
  datatype ChunkRead = ChunkRead(artifactRef: Text, mimeType: Text, byteLength: int, sha256: Text,
                                 offset: int, nextOffset: int, eof: bool, data: Text)

  function TotalOf(records: seq<Keyed<Record>>): nat {
    if records == [] then 0 else |records[0].value.bytes| + TotalOf(records[1..])
  }

  lemma {:induction false} TotalErased(records: seq<Keyed<Record>>, ref: Text)
    ensures TotalOf(Erase(records, ref))
         == TotalOf(records) - if Find(records, ref).Some? then |Find(records, ref).value.bytes| else 0
    ensures |Erase(records, ref)| == if Find(records, ref).Some? then |records| - 1 else |records|
  {
    if records != [] && records[0].key != ref {
      TotalErased(records[1..], ref);
      assert ([records[0]] + Erase(records[1..], ref))[1..] == Erase(records[1..], ref);
    }
  }

  lemma {:induction false} TotalAdded(records: seq<Keyed<Record>>, ref: Text, r: Record)
    requires Find(records, ref).None?
    ensures TotalOf(Assign(records, ref, r)) == TotalOf(records) + |r.bytes|
    ensures |Assign(records, ref, r)| == |records| + 1
  {
    if records != [] {
      TotalAdded(records[1..], ref, r);
      assert ([records[0]] + Assign(records[1..], ref, r))[1..] == Assign(records[1..], ref, r);
    }
  }

  /** The records that have not expired. */
  function Live(records: seq<Keyed<Record>>, now: int): seq<Keyed<Record>> {
    if records == [] then []
    else if records[0].value.expiresAt <= now then Live(records[1..], now)
    else [records[0]] + Live(records[1..], now)
  }

  lemma {:induction false} LiveFinds(records: seq<Keyed<Record>>, now: int, ref: Text)
    requires Distinct(records)
    ensures Distinct(Live(records, now))
    ensures Find(Live(records, now), ref)
         == if Find(records, ref).Some? && Find(records, ref).value.expiresAt > now then Find(records, ref) else None
    ensures Keys(Live(records, now)) <= Keys(records)
  {
    if records != [] {
      TailKeys(records);
      LiveFinds(records[1..], now, ref);
      var rest := Live(records[1..], now);
      FoundKeys(records[1..], ref);
      assert records[0] in records;
      forall m | m in rest ensures m.key != records[0].key {
        assert m.key in Keys(rest);
      }
      forall k | k in Keys(Live(records, now)) ensures k in Keys(records) {
        var m :| m in Live(records, now) && m.key == k;
        if m in rest { assert m.key in Keys(rest); }
      }
    }
  }

  /** What a read of an artifact answers. */
  function ReadAt(c: Codec, ref: Text, r: Record, offset: int, maxBytes: int): Result<ChunkRead> {
    if offset < 0 || offset > |r.bytes| then Err(BadOffset)
    else if maxBytes < 1 || maxBytes > MAX_CHUNK_BYTES then Err(BadLimit)
    else
      var next := if offset + maxBytes < |r.bytes| then offset + maxBytes else |r.bytes|;
      Ok(ChunkRead(ref, r.mimeType, |r.bytes|, r.sha256, offset, next, next == |r.bytes|,
                   c.encode(r.bytes[offset..next])))
  }

  class BrowserArtifactStore {
    const codec: Codec
    const maxArtifactBytes: nat
    const maxTotalBytes: nat
    const maxArtifacts: nat
    const ttl: nat
    var records: seq<Keyed<Record>>
    var totalBytes: int
    var closed: bool

    /** The byte counter is the sum of what is stored, within every quota, and each digest is its bytes'. */
    ghost predicate Valid()
      reads this
    {
      && Distinct(records)
      && totalBytes == TotalOf(records) <= maxTotalBytes && |records| <= maxArtifacts
      && forall i :: 0 <= i < |records| ==> records[i].value.sha256 == codec.byteDigest(records[i].value.bytes)
    }

    constructor (codec: Codec, maxArtifactBytes: nat, maxTotalBytes: nat, maxArtifacts: nat, ttl: nat)
      ensures Valid() && records == [] && !closed
      ensures this.codec == codec && this.maxArtifactBytes == maxArtifactBytes && this.maxTotalBytes == maxTotalBytes
    {
      this.codec, this.maxArtifactBytes, this.maxTotalBytes := codec, maxArtifactBytes, maxTotalBytes;
      this.maxArtifacts, this.ttl := maxArtifacts, ttl;
      records, totalBytes, closed := [], 0, false;
    }

    method Remove(ref: Text)
      requires Valid()
      modifies this`records, this`totalBytes
      ensures Valid() && records == Erase(old(records), ref)
    {
      TotalErased(records, ref);
      EraseDistinct(records, ref);
      var present := Find(records, ref);
      if present.Some? {
        records := Erase(records, ref);
        totalBytes := totalBytes - |present.value.bytes|;
        forall i | 0 <= i < |records| ensures records[i].value.sha256 == codec.byteDigest(records[i].value.bytes) {
          assert records[i] in old(records);
        }
      } else {
        Unchanged(records, ref);
      }
    }

    /** Every expired artifact, and no other, is removed; the rest keep their order. */
    method Reap(now: int)
      requires Valid()
      modifies this`records, this`totalBytes
      ensures Valid() && records == Live(old(records), now)
    {
      ghost var was := records;
      var expired := set i | 0 <= i < |records| && records[i].value.expiresAt <= now :: records[i].key;
      assert Without(records, expired) == Live(was, now) by {
        assert forall i :: 0 <= i < |was| ==> (was[i].key in expired <==> was[i].value.expiresAt <= now) by {
          forall i | 0 <= i < |was| && was[i].key in expired ensures was[i].value.expiresAt <= now {
            var j :| 0 <= j < |was| && was[j].value.expiresAt <= now && was[j].key == was[i].key;
            assert i == j;
          }
        }
        WithoutLive(was, expired, now);
      }
      while expired != {}
        invariant Valid() && Without(records, expired) == Live(was, now)
        decreases expired
      {
        var ref :| ref in expired;
        WithoutErased(records, expired, ref);
        Remove(ref);
        expired := expired - {ref};
      }
      WithoutNone(records);
    }

    method Add(bytes: Bytes, kind: Text, mimeType: Text, allowEmpty: bool, id: Text, now: int) returns (r: Result<Text>)
      requires Valid()
      modifies this`records, this`totalBytes
      ensures Valid()
      ensures r.Ok? <==> (&& !closed && (bytes != [] || allowEmpty) && |bytes| <= maxArtifactBytes
                          && |Live(old(records), now)| < maxArtifacts
                          && TotalOf(Live(old(records), now)) + |bytes| <= maxTotalBytes
                          && Find(Live(old(records), now), Ascii("artifact:") + id).None?)
      ensures r.Ok? ==>
        && r.value == Ascii("artifact:") + id
        && records == Assign(Live(old(records), now), r.value,
                             Record(bytes, kind, mimeType, codec.byteDigest(bytes), now + ttl))
      ensures r.Err? ==> records == old(records) || records == Live(old(records), now)
    {
      if closed { return Err(Closed); }
      if bytes == [] && !allowEmpty { return Err(Empty); }
      if |bytes| > maxArtifactBytes { return Err(TooLarge); }
      Reap(now);
      if |records| >= maxArtifacts || totalBytes + |bytes| > maxTotalBytes { return Err(Quota); }
      var ref := Ascii("artifact:") + id;
      if Find(records, ref).Some? { return Err(DuplicateId); }
      var record := Record(bytes, kind, mimeType, codec.byteDigest(bytes), now + ttl);
      TotalAdded(records, ref, record);
      AssignDistinct(records, ref, record);
      ghost var before := records;
      records := Assign(records, ref, record);
      totalBytes := totalBytes + |bytes|;
      forall i | 0 <= i < |records| ensures records[i].value.sha256 == codec.byteDigest(records[i].value.bytes) {
        assert records[i] in Assign(before, ref, record);
      }
      return Ok(ref);
    }

    method Read(ref: Text, offset: int, maxBytes: int, now: int) returns (r: Result<ChunkRead>)
      requires Valid()
      modifies this`records, this`totalBytes
      ensures Valid()
      ensures closed ==> r == Err(Closed) && records == old(records)
      ensures !closed ==>
        && records == Live(old(records), now)
        && r == match Find(old(records), ref)
                case None => Err(NotFound)
                case Some(record) => if record.expiresAt <= now then Err(NotFound)
                                     else ReadAt(codec, ref, record, offset, maxBytes)
    {
      if closed { return Err(Closed); }
      LiveFinds(records, now, ref);
      Reap(now);
      var record := Find(records, ref);
      if record.None? { return Err(NotFound); }
      if offset < 0 || offset > |record.value.bytes| { return Err(BadOffset); }
      if maxBytes < 1 || maxBytes > MAX_CHUNK_BYTES { return Err(BadLimit); }
      var rest := |record.value.bytes| - offset;
      var length := if maxBytes < rest then maxBytes else rest;
      var bytes := record.value.bytes[offset..offset + length];
      var next := offset + length;
      return Ok(ChunkRead(ref, record.value.mimeType, |record.value.bytes|, record.value.sha256, offset, next,
                          next == |record.value.bytes|, codec.encode(bytes)));
    }

    method Delete(ref: Text, now: int) returns (r: Result<bool>)
      requires Valid()
      modifies this`records, this`totalBytes
      ensures Valid()
      ensures closed ==> r == Err(Closed) && records == old(records)
      ensures !closed ==>
        && r == Ok(Find(Live(old(records), now), ref).Some?)
        && records == Erase(Live(old(records), now), ref)
    {
      if closed { return Err(Closed); }
      Reap(now);
      var present := Find(records, ref).Some?;
      if present { Remove(ref); } else { Unchanged(records, ref); }
      return Ok(present);
    }
  }

  lemma {:induction false} Unchanged(records: seq<Keyed<Record>>, ref: Text)
    requires Find(records, ref).None?
    ensures Erase(records, ref) == records
  {
    if records != [] { Unchanged(records[1..], ref); }
  }

  /** The records whose reference is not one of these. */
  ghost function Without(records: seq<Keyed<Record>>, refs: set<Text>): seq<Keyed<Record>> {
    if records == [] then []
    else (if records[0].key in refs then [] else [records[0]]) + Without(records[1..], refs)
  }

  lemma {:induction false} WithoutNone(records: seq<Keyed<Record>>)
    ensures Without(records, {}) == records
  {
    if records != [] { WithoutNone(records[1..]); }
  }

  lemma {:induction false} WithoutLive(records: seq<Keyed<Record>>, refs: set<Text>, now: int)
    requires forall i :: 0 <= i < |records| ==> (records[i].key in refs <==> records[i].value.expiresAt <= now)
    ensures Without(records, refs) == Live(records, now)
  {
    if records != [] { WithoutLive(records[1..], refs, now); }
  }

  lemma {:induction false} WithoutErased(records: seq<Keyed<Record>>, refs: set<Text>, ref: Text)
    requires Distinct(records) && ref in refs
    ensures Without(Erase(records, ref), refs - {ref}) == Without(records, refs)
  {
    if records != [] {
      if records[0].key == ref {
        TailKeys(records);
        forall i | 0 <= i < |records[1..]| ensures records[1..][i].key != ref {
          assert records[1..][i] in records[1..];
          assert records[1..][i].key in Keys(records[1..]);
        }
        WithoutOther(records[1..], refs, ref);
      } else {
        WithoutErased(records[1..], refs, ref);
        assert ([records[0]] + Erase(records[1..], ref))[1..] == Erase(records[1..], ref);
      }
    }
  }

  lemma {:induction false} WithoutOther(records: seq<Keyed<Record>>, refs: set<Text>, ref: Text)
    requires forall i :: 0 <= i < |records| ==> records[i].key != ref
    ensures Without(records, refs - {ref}) == Without(records, refs)
  {
    if records != [] { WithoutOther(records[1..], refs, ref); }
  }
}
