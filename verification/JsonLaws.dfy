/** What the canonical printer promises: its text reads back, equal text means equal values, and key order never shows.
    */
module JsonLaws {
  import opened Text
  import opened Members
  import opened Options
  import opened JsonLexis
  import opened Json
  import opened JsonReader

  /** Equal values, except that an object's members may stand in another order. */
  ghost predicate Same(v: Json, w: Json)
    decreases v
  {
    match (v, w)
    case (Arr(a), Arr(b)) =>
      |a| == |b| && forall i :: 0 <= i < |a| ==> Same(a[i], b[i])
    case (Obj(m), Obj(n)) =>
      && Keys(m) == Keys(n)
      && forall i, j :: 0 <= i < |m| && 0 <= j < |n| && m[i].key == n[j].key ==> Same(m[i].value, n[j].value)
    case _ => v == w
  }

  lemma {:induction false} NormalMemberKeys(members: seq<Keyed<Json>>)
    ensures Keys(NormalMembers(members)) == Keys(members)
    ensures Distinct(members) ==> Distinct(NormalMembers(members))
  {
    var n := NormalMembers(members);
    forall k | k in Keys(members) ensures k in Keys(n) {
      var i :| 0 <= i < |members| && members[i].key == k;
      assert n[i] in n;
    }
    forall k | k in Keys(n) ensures k in Keys(members) {
      var i :| 0 <= i < |n| && n[i].key == k;
      assert members[i] in members;
    }
  }

  /** The sorted members of an object's normal form are the normalised members, each once. */
  lemma {:induction false} SortedMembers(members: seq<Keyed<Json>>)
    requires Distinct(members)
    ensures var s := Sort(NormalMembers(members));
      && Sorted(s) && Distinct(s) && Keys(s) == Keys(members)
      && (forall m :: m in s <==> m in NormalMembers(members))
  {
    NormalMemberKeys(members);
    SortSorts(NormalMembers(members));
    SameMembers(Sort(NormalMembers(members)), NormalMembers(members));
    SortedDistinct(Sort(NormalMembers(members)));
  }

  /** The member of the object that a member of its normal form comes from, and back. */
  lemma {:induction false} FromSorted(members: seq<Keyed<Json>>, j: nat) returns (i: nat)
    requires Distinct(members) && j < |Sort(NormalMembers(members))|
    ensures i < |members|
    ensures Sort(NormalMembers(members))[j] == Keyed(members[i].key, Normal(members[i].value))
  {
    SortedMembers(members);
    var n := NormalMembers(members);
    assert Sort(n)[j] in n;
    i :| 0 <= i < |n| && n[i] == Sort(n)[j];
  }

  lemma {:induction false} ToSorted(members: seq<Keyed<Json>>, i: nat) returns (j: nat)
    requires Distinct(members) && i < |members|
    ensures j < |Sort(NormalMembers(members))|
    ensures Sort(NormalMembers(members))[j] == Keyed(members[i].key, Normal(members[i].value))
  {
    SortedMembers(members);
    var n := NormalMembers(members);
    assert n[i] in Sort(n);
    j :| 0 <= j < |Sort(n)| && Sort(n)[j] == n[i];
  }

  /** Normalising keeps a value regular and does not change whether, or how deep, it prints. */
  lemma {:induction false} NormalRegular(v: Json)
    requires Regular(v)
    ensures Regular(Normal(v))
    decreases v
  {
    match v
    case Arr(items) =>
      forall i | 0 <= i < |items| ensures Regular(Normal(items[i])) {
        NormalRegular(items[i]);
      }
    case Obj(members) =>
      var s := Sort(NormalMembers(members));
      SortedMembers(members);
      forall j | 0 <= j < |s| ensures Regular(s[j].value) {
        var i := FromSorted(members, j);
        NormalRegular(members[i].value);
      }
    case _ =>
  }

  lemma {:induction false} NormalPrintable(v: Json)
    requires Regular(v)
    ensures Printable(Normal(v)) == Printable(v)
    decreases v
  {
    match v
    case Arr(items) =>
      forall i | 0 <= i < |items| ensures Printable(Normal(items[i])) == Printable(items[i]) {
        NormalPrintable(items[i]);
      }
    case Obj(members) =>
      var s := Sort(NormalMembers(members));
      forall j | 0 <= j < |s| && Printable(v) ensures Printable(s[j].value) {
        var i := FromSorted(members, j);
        NormalPrintable(members[i].value);
      }
      forall i | 0 <= i < |members| && Printable(Obj(s)) ensures Printable(members[i].value) {
        var j := ToSorted(members, i);
        NormalPrintable(members[i].value);
      }
    case _ =>
  }

  lemma {:induction false} NormalFits(v: Json, limit: int)
    requires Regular(v)
    ensures Fits(Normal(v), limit) == Fits(v, limit)
    decreases v
  {
    match v
    case Arr(items) =>
      forall i | 0 <= i < |items| ensures Fits(Normal(items[i]), limit - 1) == Fits(items[i], limit - 1) {
        NormalFits(items[i], limit - 1);
      }
    case Obj(members) =>
      forall i | 0 <= i < |members|
        ensures Fits(Normal(members[i].value), limit - 1) == Fits(members[i].value, limit - 1)
      {
        NormalFits(members[i].value, limit - 1);
      }
      SortedFits(members, Sort(NormalMembers(members)), limit);
    case _ =>
  }

  lemma {:induction false} SortedFits(members: seq<Keyed<Json>>, s: seq<Keyed<Json>>, limit: int)
    requires Distinct(members) && s == Sort(NormalMembers(members))
    requires forall i :: 0 <= i < |members| ==>
      Fits(Normal(members[i].value), limit - 1) == Fits(members[i].value, limit - 1)
    ensures Fits(Obj(s), limit) == Fits(Obj(members), limit)
  {
    if Fits(Obj(members), limit) {
      forall j | 0 <= j < |s| ensures Fits(s[j].value, limit - 1) {
        var i := FromSorted(members, j);
      }
    }
    if Fits(Obj(s), limit) {
      forall i | 0 <= i < |members| ensures Fits(members[i].value, limit - 1) {
        var j := ToSorted(members, i);
      }
    }
  }

  lemma {:induction false} SameHasOneNormal(v: Json, w: Json)
    requires Regular(v) && Regular(w)
    ensures Same(v, w) <==> Normal(v) == Normal(w)
    decreases v
  {
    match (v, w)
    case (Arr(a), Arr(b)) =>
      var x, y := NormalItems(a), NormalItems(b);
      forall i | 0 <= i < |a| && i < |b| ensures Same(a[i], b[i]) <==> x[i] == y[i] {
        SameHasOneNormal(a[i], b[i]);
      }
    case (Obj(m), Obj(n)) =>
      SameObjects(m, n);
    case _ =>
  }

  lemma {:induction false} SameObjects(m: seq<Keyed<Json>>, n: seq<Keyed<Json>>)
    requires Distinct(m) && Distinct(n)
    requires forall i :: 0 <= i < |m| ==> Regular(m[i].value)
    requires forall i :: 0 <= i < |n| ==> Regular(n[i].value)
    ensures Same(Obj(m), Obj(n)) <==> Sort(NormalMembers(m)) == Sort(NormalMembers(n))
    decreases m
  {
    forall i, j | 0 <= i < |m| && 0 <= j < |n|
      ensures Same(m[i].value, n[j].value) <==> Normal(m[i].value) == Normal(n[j].value)
    {
      SameHasOneNormal(m[i].value, n[j].value);
    }
    if Same(Obj(m), Obj(n)) { SameSorts(m, n); }
    if Sort(NormalMembers(m)) == Sort(NormalMembers(n)) { SortedSame(m, n); }
  }

  lemma {:induction false} SameSorts(m: seq<Keyed<Json>>, n: seq<Keyed<Json>>)
    requires Distinct(m) && Distinct(n) && Keys(m) == Keys(n)
    requires forall i, j :: 0 <= i < |m| && 0 <= j < |n| && m[i].key == n[j].key
               ==> Normal(m[i].value) == Normal(n[j].value)
    ensures Sort(NormalMembers(m)) == Sort(NormalMembers(n))
  {
    var s, t := Sort(NormalMembers(m)), Sort(NormalMembers(n));
    SortedMembers(m);
    SortedMembers(n);
    forall i, j | 0 <= i < |s| && 0 <= j < |t| && s[i].key == t[j].key ensures s[i].value == t[j].value {
      var p := FromSorted(m, i);
      var q := FromSorted(n, j);
      assert m[p].key == n[q].key;
    }
    SortedUnique(s, t);
  }

  lemma {:induction false} SortedSame(m: seq<Keyed<Json>>, n: seq<Keyed<Json>>)
    requires Distinct(m) && Distinct(n) && Sort(NormalMembers(m)) == Sort(NormalMembers(n))
    ensures Keys(m) == Keys(n)
    ensures forall i, j :: 0 <= i < |m| && 0 <= j < |n| && m[i].key == n[j].key
              ==> Normal(m[i].value) == Normal(n[j].value)
  {
    SortedMembers(m);
    SortedMembers(n);
    forall i, j | 0 <= i < |m| && 0 <= j < |n| && m[i].key == n[j].key
      ensures Normal(m[i].value) == Normal(n[j].value)
    {
      var p := ToSorted(m, i);
      var q := ToSorted(n, j);
      assert p == q;
    }
  }

  /** The printed text, read back, is the value with its keys sorted, and nothing of the text is left over. */
  lemma {:induction false} CanonicalReadsBack(v: Json)
    requires Regular(v) && CanonicalText(v).Some?
    ensures ReadValue(CanonicalText(v).value) == Some((Normal(v), []))
    ensures Same(v, Normal(v))
  {
    CanonicalPrintsNormal(v, 0);
    NormalRegular(v);
    NormalPrintable(v);
    ReadsPrinted(Normal(v), []);
    assert Print(Normal(v)) + [] == Print(Normal(v));
    NormalIsNormal(v);
    SameHasOneNormal(v, Normal(v));
  }

  lemma {:induction false} NormalIsNormal(v: Json)
    requires Regular(v)
    ensures Normal(Normal(v)) == Normal(v)
    decreases v
  {
    match v
    case Arr(items) =>
      forall i | 0 <= i < |items| ensures Normal(Normal(items[i])) == Normal(items[i]) {
        NormalIsNormal(items[i]);
      }
      assert NormalItems(NormalItems(items)) == NormalItems(items);
    case Obj(members) =>
      var n, s := NormalMembers(members), Sort(NormalMembers(members));
      SortedMembers(members);
      SortedStays(s);
      forall j | 0 <= j < |s| ensures Normal(s[j].value) == s[j].value {
        assert s[j] in n;
        var i :| 0 <= i < |n| && n[i] == s[j];
        NormalIsNormal(members[i].value);
      }
      assert NormalMembers(s) == s;
    case _ =>
  }

  /** Sorting what is sorted changes nothing. */
  lemma {:induction false} SortedStays(s: seq<Keyed<Json>>)
    requires Sorted(s) && Distinct(s)
    ensures Sort(s) == s
  {
    SortSorts(s);
    SameMembers(Sort(s), s);
    assert |Sort(s)| == |multiset(Sort(s))| == |multiset(s)| == |s|;
    assert Agree(Sort(s), s) by {
      forall i, j | 0 <= i < |s| && 0 <= j < |s| && Sort(s)[i].key == s[j].key
        ensures Sort(s)[i].value == s[j].value
      {
        assert Sort(s)[i] in Sort(s) && Sort(s)[i] in s;
        var k :| 0 <= k < |s| && s[k] == Sort(s)[i];
        assert k == j;
      }
    }
    SortedUnique(Sort(s), s);
  }

  /** The text of a value, said of its normal form alone. */
  ghost function NormalText(n: Json): Option<Text> {
    if Printable(n) && Fits(n, MAX_DEPTH) then Some(Print(n)) else None
  }

  lemma {:induction false} TextOfNormal(v: Json)
    requires Regular(v)
    ensures CanonicalText(v) == NormalText(Normal(v))
  {
    CanonicalPrintsNormal(v, 0);
    NormalPrintable(v);
    NormalFits(v, MAX_DEPTH);
  }

  /** Key insertion order never changes the text: values equal up to the order of object keys print alike, or both
      fail to print. */
  lemma {:induction false} SameMeansEqualText(v: Json, w: Json)
    requires Regular(v) && Regular(w) && Same(v, w)
    ensures CanonicalText(v) == CanonicalText(w)
  {
    TextOfNormal(v);
    TextOfNormal(w);
    SameHasOneNormal(v, w);
  }

  /** Equal text means values equal up to the order of object keys. */
  lemma {:induction false} EqualTextMeansSame(v: Json, w: Json)
    requires Regular(v) && Regular(w)
    requires CanonicalText(v).Some? && CanonicalText(v) == CanonicalText(w)
    ensures Same(v, w)
  {
    CanonicalReadsBack(v);
    CanonicalReadsBack(w);
    SameHasOneNormal(v, w);
  }

  // ---- The text is well-formed UTF-16, so the UTF-8 bytes a digest is taken over determine it ----

  lemma {:induction false} AsciiWellFormed(t: Text)
    requires forall i :: 0 <= i < |t| ==> t[i] < 128
    ensures WellFormed(t)
    decreases |t|
  {
    if t != [] { AsciiWellFormed(t[1..]); }
  }

  lemma {:induction false} QuoteWellFormed(s: Text)
    ensures WellFormed(Quote(s))
  {
    EscapeWellFormed(s);
    AsciiWellFormed([QUOTE]);
    WellFormedConcat([QUOTE], Escape(s));
    WellFormedConcat([QUOTE] + Escape(s), [QUOTE]);
  }

  lemma {:induction false} EscapeWellFormed(s: Text)
    ensures WellFormed(Escape(s))
    decreases |s|
  {
    if s == [] {
    } else if Lead(s[0]) && |s| > 1 && Trail(s[1]) {
      EscapeWellFormed(s[2..]);
      assert WellFormed([s[0], s[1]]);
      WellFormedConcat([s[0], s[1]], Escape(s[2..]));
    } else {
      EscapeWellFormed(s[1..]);
      if |EscapeUnit(s[0])| == 1 {
        assert EscapeUnit(s[0])[1..] == [];
      } else {
        AsciiWellFormed(EscapeUnit(s[0]));
      }
      WellFormedConcat(EscapeUnit(s[0]), Escape(s[1..]));
    }
  }

  /** Escaping lone surrogates leaves none in the printed text, whatever strings and keys the value holds. */
  lemma {:induction false} PrintedWellFormed(v: Json)
    requires Regular(v)
    ensures WellFormed(Print(v))
    decreases v
  {
    match v
    case Str(s) => QuoteWellFormed(s);
    case Num(token) => AsciiWellFormed(token);
    case Int(n) => AsciiWellFormed(IntText(n));
    case Arr(items) =>
      forall i | 0 <= i < |items| ensures WellFormed(PrintItems(items)[i]) {
        PrintedItem(items, i);
        PrintedWellFormed(items[i]);
      }
      JoinedWellFormed(PrintItems(items));
      Enclosed(91, Joined(PrintItems(items)), 93);
    case Obj(members) =>
      forall i | 0 <= i < |members| ensures WellFormed(PrintMembers(members)[i].value) {
        PrintedMember(members, i);
        PrintedWellFormed(members[i].value);
      }
      JoinedMembersWellFormed(PrintMembers(members));
      Enclosed(123, JoinedMembers(PrintMembers(members)), 125);
    case _ =>
      AsciiWellFormed(Print(v));
  }

  lemma {:induction false} PrintedItem(items: seq<Json>, i: nat)
    requires i < |items|
    ensures PrintItems(items)[i] == Print(items[i])
  {
    if i > 0 { PrintedItem(items[1..], i - 1); }
  }

  lemma {:induction false} PrintedMember(members: seq<Keyed<Json>>, i: nat)
    requires i < |members|
    ensures PrintMembers(members)[i] == Keyed(members[i].key, Print(members[i].value))
  {
    if i > 0 { PrintedMember(members[1..], i - 1); }
  }

  lemma {:induction false} Enclosed(open: Unit, body: Text, close: Unit)
    requires WellFormed(body) && open < 128 && close < 128
    ensures WellFormed([open] + body + [close])
  {
    AsciiWellFormed([open]);
    AsciiWellFormed([close]);
    WellFormedConcat([open], body);
    WellFormedConcat([open] + body, [close]);
  }

  lemma {:induction false} JoinedWellFormed(texts: seq<Text>)
    requires forall i :: 0 <= i < |texts| ==> WellFormed(texts[i])
    ensures WellFormed(Joined(texts))
  {
    if |texts| > 1 {
      JoinedWellFormed(texts[1..]);
      AsciiWellFormed([COMMA]);
      WellFormedConcat(texts[0], [COMMA]);
      WellFormedConcat(texts[0] + [COMMA], Joined(texts[1..]));
    }
  }

  lemma {:induction false} JoinedMembersWellFormed(texts: seq<Keyed<Text>>)
    requires forall i :: 0 <= i < |texts| ==> WellFormed(texts[i].value)
    ensures WellFormed(JoinedMembers(texts))
  {
    if texts != [] {
      var key := Quote(texts[0].key);
      QuoteWellFormed(texts[0].key);
      AsciiWellFormed([COLON]);
      AsciiWellFormed([COMMA]);
      WellFormedConcat(key, [COLON]);
      WellFormedConcat(key + [COLON], texts[0].value);
      if |texts| > 1 {
        JoinedMembersWellFormed(texts[1..]);
        WellFormedConcat(key + [COLON] + texts[0].value, [COMMA]);
        WellFormedConcat(key + [COLON] + texts[0].value + [COMMA], JoinedMembers(texts[1..]));
      }
    }
  }
}
