/** Artifact bytes leave an output when it is recorded and come back when it is replayed. */
module Artifacts {
  import opened Text
  import opened Members
  import opened Options
  import opened Json
  import opened JsonLaws
  import opened Recording

  const DATA: Text := Ascii("dataBase64")
  const OFFSET: Text := Ascii("offset")
  const NEXT_OFFSET: Text := Ascii("nextOffset")
  const PROTO: Text := Ascii("__proto__")

  /** The object made by assigning these members one after another. Assigning `__proto__` adds no member: it sets the
      prototype, which a scalar leaves alone, null only clears, and an object turns into a value the printer refuses. */
  function Built(members: seq<Keyed<Json>>): Json {
    match Find(members, PROTO)
    case None => Obj(members)
    case Some(v) => if v.Arr? || v.Obj? || v.Unprintable? then Unprintable else Obj(Erase(members, PROTO))
  }

  // ---- Recording: recordingCopy ----

  /** An object that describes a screenshot and names its artifact. */
  predicate Screenshot(members: seq<Keyed<Json>>) {
    && Find(members, Ascii("kind")) == Some(SCREENSHOT) && HoldsRef(members)
    && IsString(Find(members, Ascii("mimeType"))) && Ascii("image/") <= Find(members, Ascii("mimeType")).value.s
    && Find(members, OFFSET).None?
  }

  /** An object that carries part of an artifact's bytes. */
  predicate Chunk(members: seq<Keyed<Json>>) {
    && HoldsRef(members) && IsInteger(Find(members, OFFSET)) && IsInteger(Find(members, NEXT_OFFSET))
    && IsString(Find(members, DATA))
  }

  /** The object's base64 text does not reach the recorded output. */
  predicate Drops(members: seq<Keyed<Json>>) {
    (Screenshot(members) || Chunk(members)) && IsString(Find(members, DATA))
  }

  /** The output as it is recorded. */
  function Strip(v: Json): Json {
    match v
    case Arr(items) => Arr(StripItems(items))
    case Obj(members) => Built(StripMembers(members, Drops(members)))
    case _ => v
  }

  function StripItems(items: seq<Json>): (r: seq<Json>)
    ensures |r| == |items| && forall i :: 0 <= i < |items| ==> r[i] == Strip(items[i])
  {
    if items == [] then [] else [Strip(items[0])] + StripItems(items[1..])
  }

  function StripMembers(members: seq<Keyed<Json>>, drop: bool): seq<Keyed<Json>> {
    if members == [] then []
    else if drop && members[0].key == DATA then StripMembers(members[1..], drop)
    else [Keyed(members[0].key, Strip(members[0].value))] + StripMembers(members[1..], drop)
  }

  // ---- Replay: rehydrateRecordedArtifacts ----

  /** What replay works with: the entry's operation and inlined references, and the bytes of the artifact table. */
  datatype Vault = Vault(operation: Text, inlined: set<Text>, bytes: map<Text, Bytes>, encode: Bytes -> Text)

  predicate Inlines(k: Vault, members: seq<Keyed<Json>>) {
    IsString(Find(members, ARTIFACT_REF)) && Find(members, ARTIFACT_REF).value.s in k.inlined
  }

  predicate Reads(k: Vault, members: seq<Keyed<Json>>) {
    && k.operation == ARTIFACT_READ && IsInteger(Find(members, OFFSET)) && IsInteger(Find(members, NEXT_OFFSET))
    && Find(members, OFFSET).value.n <= Find(members, NEXT_OFFSET).value.n
  }

  /** The bytes of the artifact an object names, if the table has them. */
  function Whole(k: Vault, members: seq<Keyed<Json>>): Option<Bytes> {
    if IsString(Find(members, ARTIFACT_REF)) && Find(members, ARTIFACT_REF).value.s in k.bytes
    then Some(k.bytes[Find(members, ARTIFACT_REF).value.s]) else None
  }

  /** The slice of it between the object's two offsets, if it is one. */
  function Slice(k: Vault, members: seq<Keyed<Json>>): Option<Bytes>
    requires Reads(k, members)
  {
    var whole := Whole(k, members);
    var from, to := Find(members, OFFSET).value.n, Find(members, NEXT_OFFSET).value.n;
    if whole.Some? && 0 <= from && to <= |whole.value| then Some(whole.value[from..to]) else None
  }

  /** An object, its members already rehydrated, with its bytes put back; None where the bytes are not to be had. */
  function Refill(k: Vault, members: seq<Keyed<Json>>): Option<Json> {
    if Inlines(k, members) then
      match Whole(k, members)
      case Some(b) => Some(Obj(Assign(members, DATA, Str(k.encode(b)))))
      case None => None
    else if Reads(k, members) then
      match Slice(k, members)
      case Some(b) => Some(Obj(Assign(members, DATA, Str(k.encode(b)))))
      case None => None
    else Some(Obj(members))
  }

  function RefillBuilt(k: Vault, v: Json): Option<Json> {
    if v.Obj? then Refill(k, v.members) else Some(v)
  }

  /** The recorded output as it is replayed; None where an artifact is missing or a slice is invalid. */
  function Rehydrate(k: Vault, v: Json): Option<Json> {
    match v
    case Arr(items) =>
      (match RehydrateItems(k, items)
       case Some(r) => Some(Arr(r))
       case None => None)
    case Obj(members) =>
      (match RehydrateMembers(k, members)
       case Some(r) => RefillBuilt(k, Built(r))
       case None => None)
    case _ => Some(v)
  }

  function RehydrateItems(k: Vault, items: seq<Json>): (r: Option<seq<Json>>)
    ensures r.Some? ==> |r.value| == |items|
    ensures r.Some? ==> forall i :: 0 <= i < |items| ==> Rehydrate(k, items[i]) == Some(r.value[i])
    ensures r.None? ==> exists i :: 0 <= i < |items| && Rehydrate(k, items[i]).None?
  {
    if items == [] then Some([])
    else
      match (Rehydrate(k, items[0]), RehydrateItems(k, items[1..]))
      case (Some(first), Some(rest)) => Some([first] + rest)
      case (None, _) => None
      case (_, None) =>
        assert exists i :: 0 <= i < |items| && Rehydrate(k, items[i]).None? by {
          var i :| 0 <= i < |items[1..]| && Rehydrate(k, items[1..][i]).None?;
          assert items[i + 1] == items[1..][i];
        }
        None
  }

  function RehydrateMembers(k: Vault, members: seq<Keyed<Json>>): (r: Option<seq<Keyed<Json>>>)
    ensures r.Some? ==> |r.value| == |members|
    ensures r.Some? ==> forall i :: 0 <= i < |members| ==>
      r.value[i].key == members[i].key && Rehydrate(k, members[i].value) == Some(r.value[i].value)
    ensures r.None? ==> exists i :: 0 <= i < |members| && Rehydrate(k, members[i].value).None?
  {
    if members == [] then Some([])
    else
      match (Rehydrate(k, members[0].value), RehydrateMembers(k, members[1..]))
      case (Some(first), Some(rest)) => Some([Keyed(members[0].key, first)] + rest)
      case (None, _) => None
      case (_, None) =>
        assert exists i :: 0 <= i < |members| && Rehydrate(k, members[i].value).None? by {
          var i :| 0 <= i < |members[1..]| && Rehydrate(k, members[1..][i].value).None?;
          assert members[i + 1] == members[1..][i];
        }
        None
  }

  // ---- When an output survives the round trip ----

  /** An object whose bytes come back as they were: one that replay refills carried exactly the bytes it is refilled
      with, and one that replay leaves alone lost nothing. */
  predicate OwnBytesReturn(k: Vault, members: seq<Keyed<Json>>) {
    if Inlines(k, members) then
      Whole(k, members).Some? && Find(members, DATA) == Some(Str(k.encode(Whole(k, members).value)))
    else if Reads(k, members) then
      Slice(k, members).Some? && Find(members, DATA) == Some(Str(k.encode(Slice(k, members).value)))
    else !Drops(members)
  }

  /** No assignment of a member sets a prototype instead. */
  predicate Plain(members: seq<Keyed<Json>>) { Find(members, PROTO).None? }

  /** Every object of the output, however deep, is plain and gets its bytes back. */
  predicate Returns(k: Vault, v: Json) {
    match v
    case Arr(items) => forall i :: 0 <= i < |items| ==> Returns(k, items[i])
    case Obj(members) =>
      && Plain(members) && OwnBytesReturn(k, members)
      && forall i :: 0 <= i < |members| ==> Returns(k, members[i].value)
    case _ => true
  }

  /** The replayed output is the original one, up to the order of object keys. */
  ghost predicate Survives(k: Vault, v: Json) {
    Rehydrate(k, Strip(v)).Some? && Same(Rehydrate(k, Strip(v)).value, v)
  }

  // ---- Objects by key ----

  ghost predicate SameValue(a: Option<Json>, b: Option<Json>) {
    a.Some? == b.Some? && (a.Some? ==> Same(a.value, b.value))
  }

  ghost predicate SameUnderKeys(m: seq<Keyed<Json>>, n: seq<Keyed<Json>>) {
    forall key :: SameValue(Find(m, key), Find(n, key))
  }

  /** Objects are the same exactly when every key has the same value in both, or none. */
  lemma {:induction false} SameByKey(m: seq<Keyed<Json>>, n: seq<Keyed<Json>>)
    requires Distinct(m) && Distinct(n)
    ensures Same(Obj(m), Obj(n)) <==> SameUnderKeys(m, n)
  {
    if Same(Obj(m), Obj(n)) {
      forall key ensures SameValue(Find(m, key), Find(n, key)) {
        FoundKeys(m, key);
        FoundKeys(n, key);
        if Find(m, key).Some? {
          var i := FoundIndex(m, key);
          var j := FoundIndex(n, key);
          assert m[i].key == n[j].key;
        }
      }
    }
    if SameUnderKeys(m, n) {
      forall key ensures key in Keys(m) <==> key in Keys(n) {
        FoundKeys(m, key);
        FoundKeys(n, key);
        assert SameValue(Find(m, key), Find(n, key));
      }
      assert Keys(m) == Keys(n);
      forall i, j | 0 <= i < |m| && 0 <= j < |n| && m[i].key == n[j].key ensures Same(m[i].value, n[j].value) {
        FindsAt(m, i);
        FindsAt(n, j);
        assert SameValue(Find(m, m[i].key), Find(n, m[i].key));
      }
      assert Same(Obj(m), Obj(n));
    }
  }

  lemma {:induction false} FindStripped(members: seq<Keyed<Json>>, drop: bool, key: Text)
    ensures Find(StripMembers(members, drop), key)
         == if (drop && key == DATA) || Find(members, key).None? then None else Some(Strip(Find(members, key).value))
  {
    if members != [] { FindStripped(members[1..], drop, key); }
  }

  lemma {:induction false} StrippedDistinct(members: seq<Keyed<Json>>, drop: bool)
    requires Distinct(members)
    ensures Distinct(StripMembers(members, drop))
    ensures Keys(StripMembers(members, drop)) <= Keys(members)
  {
    if members != [] {
      StrippedDistinct(members[1..], drop);
      TailKeys(members);
      var rest := StripMembers(members[1..], drop);
      forall m | m in rest ensures m.key != members[0].key {
        assert m.key in Keys(rest);
      }
      forall key | key in Keys(StripMembers(members, drop)) ensures key in Keys(members) {
        assert members[0] in members;
        var m :| m in StripMembers(members, drop) && m.key == key;
        if m in rest { assert m.key in Keys(rest); }
      }
    }
  }

  lemma {:induction false} FindMapped(m: seq<Keyed<Json>>, n: seq<Keyed<Json>>, key: Text)
    requires |m| == |n| && forall i :: 0 <= i < |m| ==> m[i].key == n[i].key
    ensures Find(m, key).Some? == Find(n, key).Some?
    ensures Find(m, key).Some? ==>
      exists i :: 0 <= i < |m| && m[i] == Keyed(key, Find(m, key).value) && n[i] == Keyed(key, Find(n, key).value)
  {
    if m != [] {
      if m[0].key != key {
        FindMapped(m[1..], n[1..], key);
        if Find(m, key).Some? {
          var i :| 0 <= i < |m[1..]| && m[1..][i] == Keyed(key, Find(m[1..], key).value)
                   && n[1..][i] == Keyed(key, Find(n[1..], key).value);
          assert m[i + 1] == m[1..][i] && n[i + 1] == n[1..][i];
        }
      } else {
        assert m[0] == Keyed(key, Find(m, key).value) && n[0] == Keyed(key, Find(n, key).value);
      }
    }
  }

  // ---- The round trip ----

  /** What recording and replay do to one object, seen key by key: `r` is the stripped object with its members
      rehydrated, not yet refilled. */
  ghost predicate Emptied(k: Vault, members: seq<Keyed<Json>>, r: seq<Keyed<Json>>) {
    && Distinct(r)
    && forall key :: match Find(members, key)
         case None => Find(r, key).None?
         case Some(v) =>
           if Drops(members) && key == DATA then Find(r, key).None?
           else Find(r, key).Some? && Rehydrate(k, Strip(v)) == Some(Find(r, key).value)
  }

  lemma {:induction false} SameKeysDistinct(m: seq<Keyed<Json>>, n: seq<Keyed<Json>>)
    requires Distinct(m) && |m| == |n| && forall i :: 0 <= i < |m| ==> m[i].key == n[i].key
    ensures Distinct(n)
  {
  }

  lemma {:induction false} EmptiedBy(k: Vault, members: seq<Keyed<Json>>)
    requires Distinct(members)
    requires RehydrateMembers(k, StripMembers(members, Drops(members))).Some?
    ensures Emptied(k, members, RehydrateMembers(k, StripMembers(members, Drops(members))).value)
  {
    var drop := Drops(members);
    var s := StripMembers(members, drop);
    var r := RehydrateMembers(k, s).value;
    StrippedDistinct(members, drop);
    SameKeysDistinct(s, r);
    forall key ensures match Find(members, key)
      case None => Find(r, key).None?
      case Some(v) =>
        if drop && key == DATA then Find(r, key).None?
        else Find(r, key).Some? && Rehydrate(k, Strip(v)) == Some(Find(r, key).value)
    {
      FindStripped(members, drop, key);
      FindMapped(s, r, key);
      if Find(s, key).Some? {
        var i :| 0 <= i < |s| && s[i] == Keyed(key, Find(s, key).value) && r[i] == Keyed(key, Find(r, key).value);
      }
    }
  }

  /** A string or an integer passes through recording and replay untouched, and nothing else turns into one. */
  lemma {:induction false} ScalarsPass(k: Vault, v: Json, w: Json)
    requires Rehydrate(k, Strip(v)) == Some(w)
    ensures v.Str? || w.Str? ==> v == w
    ensures v.Int? || w.Int? ==> v == w
  {
    match v
    case Obj(members) =>
      assert Strip(v).Unprintable? || Strip(v).Obj?;
      assert w.Unprintable? || w.Obj?;
    case _ =>
  }

  lemma {:induction false} EmptiedReads(k: Vault, members: seq<Keyed<Json>>, r: seq<Keyed<Json>>)
    requires Emptied(k, members, r)
    ensures Inlines(k, members) == Inlines(k, r) && Reads(k, members) == Reads(k, r)
    ensures Whole(k, members) == Whole(k, r)
    ensures Reads(k, members) ==> Slice(k, members) == Slice(k, r)
  {
    KeysDiffer();
    EmptiedScalar(k, members, r, ARTIFACT_REF);
    EmptiedScalar(k, members, r, OFFSET);
    EmptiedScalar(k, members, r, NEXT_OFFSET);
  }

  lemma {:induction false} KeysDiffer()
    ensures ARTIFACT_REF != DATA && OFFSET != DATA && NEXT_OFFSET != DATA && PROTO != DATA
  {
    assert NEXT_OFFSET[0] != DATA[0];
    assert PROTO[0] != DATA[0];
  }

  lemma {:induction false} EmptiedScalar(k: Vault, members: seq<Keyed<Json>>, r: seq<Keyed<Json>>, key: Text)
    requires Emptied(k, members, r) && key != DATA
    ensures IsString(Find(members, key)) || IsString(Find(r, key)) ==> Find(members, key) == Find(r, key)
    ensures IsInteger(Find(members, key)) || IsInteger(Find(r, key)) ==> Find(members, key) == Find(r, key)
  {
    if Find(members, key).Some? {
      ScalarsPass(k, Find(members, key).value, Find(r, key).value);
    }
  }

  /** The bytes an object is refilled with, or None where replay leaves it alone. */
  ghost function Refilling(k: Vault, members: seq<Keyed<Json>>): Option<Option<Bytes>> {
    if Inlines(k, members) then Some(Whole(k, members))
    else if Reads(k, members) then Some(Slice(k, members))
    else None
  }

  // ---- Objects with a `__proto__` member ----

  /** A plain object is stripped and built again member by member. */
  lemma {:induction false} PlainBuilt(k: Vault, members: seq<Keyed<Json>>)
    requires Plain(members)
    ensures Strip(Obj(members)) == Obj(StripMembers(members, Drops(members)))
    ensures RehydrateMembers(k, StripMembers(members, Drops(members))).Some? ==>
      Rehydrate(k, Strip(Obj(members))) == Refill(k, RehydrateMembers(k, StripMembers(members, Drops(members))).value)
  {
    var s := StripMembers(members, Drops(members));
    FindStripped(members, Drops(members), PROTO);
    if RehydrateMembers(k, s).Some? { FindMapped(s, RehydrateMembers(k, s).value, PROTO); }
  }

  /** Filling in the bytes adds no `__proto__` member. */
  lemma {:induction false} RefilledPlain(k: Vault, members: seq<Keyed<Json>>)
    requires Plain(members) && Refill(k, members).Some?
    ensures Refill(k, members).value.Obj? && Plain(Refill(k, members).value.members)
  {
    KeysDiffer();
    if Inlines(k, members) {
      FindAssigned(members, DATA, Str(k.encode(Whole(k, members).value)), PROTO);
    } else if Reads(k, members) {
      FindAssigned(members, DATA, Str(k.encode(Slice(k, members).value)), PROTO);
    }
  }

  /** Whatever replay makes of a recorded object, it has no `__proto__` member. */
  lemma {:induction false} RehydratedPlain(k: Vault, members: seq<Keyed<Json>>)
    requires Distinct(members) && Rehydrate(k, Obj(members)).Some?
    ensures var w := Rehydrate(k, Obj(members)).value; w.Obj? ==> Plain(w.members)
  {
    var r := RehydrateMembers(k, members).value;
    SameKeysDistinct(members, r);
    var built := Built(r);
    if built.Obj? {
      FindErased(r, PROTO, PROTO);
      RefilledPlain(k, built.members);
    }
  }

  /** An object with a `__proto__` member never survives. */
  lemma {:induction false} ProtoIsLost(k: Vault, members: seq<Keyed<Json>>)
    requires Distinct(members) && !Plain(members)
    ensures !Survives(k, Obj(members))
  {
    var s := StripMembers(members, Drops(members));
    StrippedDistinct(members, Drops(members));
    EraseDistinct(s, PROTO);
    if Survives(k, Obj(members)) {
      RehydratedPlain(k, Strip(Obj(members)).members);
      var w := Rehydrate(k, Strip(Obj(members))).value.members;
      FoundKeys(w, PROTO);
      FoundKeys(members, PROTO);
    }
  }

  /** One object survives exactly when it is plain, all its kept members survive and its own bytes return. */
  lemma {:induction false} ObjectSurvives(k: Vault, members: seq<Keyed<Json>>)
    requires Distinct(members)
    requires forall i :: 0 <= i < |members| ==> (Survives(k, members[i].value) <==> Returns(k, members[i].value))
    ensures Survives(k, Obj(members)) <==> Returns(k, Obj(members))
  {
    if Plain(members) { PlainSurvives(k, members); } else { ProtoIsLost(k, members); }
  }

  lemma {:induction false} PlainSurvives(k: Vault, members: seq<Keyed<Json>>)
    requires Distinct(members) && Plain(members)
    requires forall i :: 0 <= i < |members| ==> (Survives(k, members[i].value) <==> Returns(k, members[i].value))
    ensures Survives(k, Obj(members)) <==> Returns(k, Obj(members))
  {
    var s := StripMembers(members, Drops(members));
    PlainBuilt(k, members);
    if RehydrateMembers(k, s).None? {
      LostMember(k, members);
    } else {
      var r := RehydrateMembers(k, s).value;
      EmptiedBy(k, members);
      EmptiedReads(k, members, r);
      if Returns(k, Obj(members)) { RefilledSurvives(k, members, r); }
      if Survives(k, Obj(members)) { SurvivingReturns(k, members, r); }
    }
  }

  /** If some member cannot be rehydrated, the object neither survives nor returns. */
  lemma {:induction false} LostMember(k: Vault, members: seq<Keyed<Json>>)
    requires Distinct(members) && Plain(members)
    requires forall i :: 0 <= i < |members| ==> (Survives(k, members[i].value) <==> Returns(k, members[i].value))
    requires RehydrateMembers(k, StripMembers(members, Drops(members))).None?
    ensures !Survives(k, Obj(members)) && !Returns(k, Obj(members))
  {
    PlainBuilt(k, members);
    var s := StripMembers(members, Drops(members));
    var i :| 0 <= i < |s| && Rehydrate(k, s[i].value).None?;
    StrippedDistinct(members, Drops(members));
    FindsAt(s, i);
    FindStripped(members, Drops(members), s[i].key);
    var j := FoundIndex(members, s[i].key);
    assert !Survives(k, members[j].value);
  }

  lemma {:induction false} RefilledSurvives(k: Vault, members: seq<Keyed<Json>>, r: seq<Keyed<Json>>)
    requires Distinct(members) && Plain(members) && Emptied(k, members, r)
    requires RehydrateMembers(k, StripMembers(members, Drops(members))) == Some(r)
    requires Inlines(k, members) == Inlines(k, r) && Reads(k, members) == Reads(k, r)
    requires Whole(k, members) == Whole(k, r)
    requires Reads(k, members) ==> Slice(k, members) == Slice(k, r)
    requires forall i :: 0 <= i < |members| ==> Survives(k, members[i].value)
    requires OwnBytesReturn(k, members)
    ensures Survives(k, Obj(members))
  {
    PlainBuilt(k, members);
    var w := Rehydrate(k, Strip(Obj(members))).value.members;
    if Refilling(k, members).Some? { AssignDistinct(r, DATA, Str(k.encode(Refilling(k, members).value.value))); }
    forall key ensures SameValue(Find(w, key), Find(members, key)) {
      if Refilling(k, members).Some? { FindAssigned(r, DATA, Str(k.encode(Refilling(k, members).value.value)), key); }
      if Find(members, key).Some? {
        var i := FoundIndex(members, key);
        assert Survives(k, members[i].value);
      }
    }
    SameByKey(w, members);
  }

  lemma {:induction false} SurvivingReturns(k: Vault, members: seq<Keyed<Json>>, r: seq<Keyed<Json>>)
    requires Distinct(members) && Plain(members) && Emptied(k, members, r)
    requires RehydrateMembers(k, StripMembers(members, Drops(members))) == Some(r)
    requires Inlines(k, members) == Inlines(k, r) && Reads(k, members) == Reads(k, r)
    requires Whole(k, members) == Whole(k, r)
    requires Reads(k, members) ==> Slice(k, members) == Slice(k, r)
    requires forall i :: 0 <= i < |members| ==> (Survives(k, members[i].value) <==> Returns(k, members[i].value))
    requires Survives(k, Obj(members))
    ensures Returns(k, Obj(members))
  {
    PlainBuilt(k, members);
    var w := Rehydrate(k, Strip(Obj(members))).value.members;
    if Refilling(k, members).Some? { AssignDistinct(r, DATA, Str(k.encode(Refilling(k, members).value.value))); }
    SameByKey(w, members);
    assert SameValue(Find(w, DATA), Find(members, DATA));
    if Refilling(k, members).Some? { FindAssigned(r, DATA, Str(k.encode(Refilling(k, members).value.value)), DATA); }
    assert OwnBytesReturn(k, members);
    forall i | 0 <= i < |members| ensures Returns(k, members[i].value) {
      var key := members[i].key;
      FindsAt(members, i);
      assert SameValue(Find(w, key), Find(members, key));
      if Refilling(k, members).Some? { FindAssigned(r, DATA, Str(k.encode(Refilling(k, members).value.value)), key); }
      if key == DATA && (Refilling(k, members).Some? || Drops(members)) {
        assert members[i].value.Str?;
      } else {
        assert Survives(k, members[i].value);
      }
    }
  }

  /** An output of any nesting comes back from recording and replay, up to the order of object keys, exactly when
      every object in it is free of a `__proto__` member and gets back the bytes it carried. */
  lemma {:induction false} SurvivesExactly(k: Vault, v: Json)
    requires Regular(v)
    ensures Survives(k, v) <==> Returns(k, v)
    decreases v
  {
    match v
    case Arr(items) =>
      forall i | 0 <= i < |items| ensures Survives(k, items[i]) <==> Returns(k, items[i]) {
        SurvivesExactly(k, items[i]);
      }
      ArraySurvives(k, items);
    case Obj(members) =>
      forall i | 0 <= i < |members| ensures Survives(k, members[i].value) <==> Returns(k, members[i].value) {
        SurvivesExactly(k, members[i].value);
      }
      ObjectSurvives(k, members);
    case _ =>
  }

  lemma {:induction false} ArraySurvives(k: Vault, items: seq<Json>)
    requires forall i :: 0 <= i < |items| ==> (Survives(k, items[i]) <==> Returns(k, items[i]))
    ensures Survives(k, Arr(items)) <==> Returns(k, Arr(items))
  {
    var s := StripItems(items);
    if RehydrateItems(k, s).None? {
      var i :| 0 <= i < |s| && Rehydrate(k, s[i]).None?;
      assert !Survives(k, items[i]);
    } else {
      var r := RehydrateItems(k, s).value;
      assert forall i :: 0 <= i < |items| ==> (Survives(k, items[i]) <==> Same(r[i], items[i]));
    }
  }

  /** One output that is lost without a word: its only member is `__proto__`, and what comes back is an empty object. */
  lemma {:induction false} ProtoScalarVanishes(k: Vault)
    ensures var v := Obj([Keyed(PROTO, Int(1))]);
      Regular(v) && Strip(v) == Obj([]) && Rehydrate(k, Strip(v)) == Some(Obj([])) && !Survives(k, v)
  {
    var members := [Keyed(PROTO, Int(1))];
    assert PROTO != ARTIFACT_REF by { assert PROTO[0] != ARTIFACT_REF[0]; }
    assert !Drops(members) by { assert Find(members, ARTIFACT_REF) == Find(members[1..], ARTIFACT_REF); }
    assert StripMembers(members, false) == members by { assert StripMembers(members[1..], false) == []; }
    ProtoIsLost(k, members);
  }

  /** An output with an object under `__proto__` is not recorded at all: its copy has no canonical text. */
  lemma {:induction false} ProtoObjectUnprintable(members: seq<Keyed<Json>>)
    requires Find(members, PROTO).Some? && Find(members, PROTO).value.Obj?
    ensures CanonicalText(Strip(Obj(members))).None?
  {
    KeysDiffer();
    FindStripped(members, Drops(members), PROTO);
    assert Strip(Find(members, PROTO).value).Obj? || Strip(Find(members, PROTO).value).Unprintable?;
  }
}
