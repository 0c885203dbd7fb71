/** Canonical JSON: the printer behind every recording digest, a reader for the text it prints, and what equal text
    means. */
module Json {
  import opened Text
  import opened Members
  import opened Options
  import opened JsonLexis

  /** A value as the printer meets it. `Int` is a number whose JSON text is a plain decimal integer, `Num` any other
      finite number named by its JSON text, `Unprintable` everything the printer refuses (undefined, a function, NaN).
      */
  datatype Json =
    | Null
    | Bool(b: bool)
    | Int(n: int)
    | Num(token: Text)
    | Str(s: Text)
    | Arr(items: seq<Json>)
    | Obj(members: seq<Keyed<Json>>)
    | Unprintable

  const MAX_DEPTH := 64

  // ---- Printing ----

  /** The members of an object, or the items of an array, whose text the printer would take. */
  predicate Printable(v: Json) {
    match v
    case Unprintable => false
    case Arr(items) => forall i :: 0 <= i < |items| ==> Printable(items[i])
    case Obj(members) => forall i :: 0 <= i < |members| ==> Printable(members[i].value)
    case _ => true
  }

  /** A value no deeper than `limit`: a scalar or an empty container needs depth 0. */
  predicate Fits(v: Json, limit: int) {
    && 0 <= limit
    && match v
       case Arr(items) => forall i :: 0 <= i < |items| ==> Fits(items[i], limit - 1)
       case Obj(members) => forall i :: 0 <= i < |members| ==> Fits(members[i].value, limit - 1)
       case _ => true
  }

  /** A value JavaScript can hold: object keys are distinct and a number's text is a number. */
  predicate Regular(v: Json) {
    match v
    case Num(token) => NumberToken(token)
    case Arr(items) => forall i :: 0 <= i < |items| ==> Regular(items[i])
    case Obj(members) => Distinct(members) && forall i :: 0 <= i < |members| ==> Regular(members[i].value)
    case _ => true
  }

  const NULL_TEXT := Ascii("null")
  const TRUE_TEXT := Ascii("true")
  const FALSE_TEXT := Ascii("false")

  /** The canonical printer, `depth` levels down: object keys sorted, nothing between tokens. */
  function CanonicalAt(v: Json, depth: nat): Option<Text> {
    if depth > MAX_DEPTH then None
    else
      match v
      case Null => Some(NULL_TEXT)
      case Bool(b) => Some(if b then TRUE_TEXT else FALSE_TEXT)
      case Int(n) => Some(IntText(n))
      case Num(token) => Some(token)
      case Str(s) => Some(Quote(s))
      case Unprintable => None
      case Arr(items) =>
        (match CanonicalItems(items, depth + 1)
         case Some(texts) => Some([91] + Joined(texts) + [93])
         case None => None)
      case Obj(members) =>
        (match CanonicalMembers(members, depth + 1)
         case Some(texts) => Some([123] + JoinedMembers(Sort(texts)) + [125])
         case None => None)
  }

  function CanonicalItems(items: seq<Json>, depth: nat): Option<seq<Text>> {
    if items == [] then Some([])
    else
      match (CanonicalAt(items[0], depth), CanonicalItems(items[1..], depth))
      case (Some(first), Some(rest)) => Some([first] + rest)
      case _ => None
  }

  function CanonicalMembers(members: seq<Keyed<Json>>, depth: nat): Option<seq<Keyed<Text>>> {
    if members == [] then Some([])
    else
      match (CanonicalAt(members[0].value, depth), CanonicalMembers(members[1..], depth))
      case (Some(first), Some(rest)) => Some([Keyed(members[0].key, first)] + rest)
      case _ => None
  }

  function Joined(texts: seq<Text>): Text {
    if texts == [] then []
    else if |texts| == 1 then texts[0]
    else texts[0] + [COMMA] + Joined(texts[1..])
  }

  function JoinedMembers(texts: seq<Keyed<Text>>): Text {
    if texts == [] then []
    else if |texts| == 1 then Quote(texts[0].key) + [COLON] + texts[0].value
    else Quote(texts[0].key) + [COLON] + texts[0].value + [COMMA] + JoinedMembers(texts[1..])
  }

  /** `canonicalRecordingJson`: the text of a value, or None where it throws. */
  function CanonicalText(v: Json): Option<Text> { CanonicalAt(v, 0) }

  // ---- Normal form: the same value with every object's keys sorted ----

  function Normal(v: Json): Json {
    match v
    case Arr(items) => Arr(NormalItems(items))
    case Obj(members) => Obj(Sort(NormalMembers(members)))
    case _ => v
  }

  function NormalItems(items: seq<Json>): (r: seq<Json>)
    ensures |r| == |items| && forall i :: 0 <= i < |items| ==> r[i] == Normal(items[i])
  {
    if items == [] then [] else [Normal(items[0])] + NormalItems(items[1..])
  }

  function NormalMembers(members: seq<Keyed<Json>>): (r: seq<Keyed<Json>>)
    ensures |r| == |members|
    ensures forall i :: 0 <= i < |members| ==> r[i] == Keyed(members[i].key, Normal(members[i].value))
  {
    if members == [] then []
    else [Keyed(members[0].key, Normal(members[0].value))] + NormalMembers(members[1..])
  }

  /** The text of a value whose members stand in printing order. */
  function Print(v: Json): Text {
    match v
    case Null => NULL_TEXT
    case Bool(b) => if b then TRUE_TEXT else FALSE_TEXT
    case Int(n) => IntText(n)
    case Num(token) => token
    case Str(s) => Quote(s)
    case Unprintable => []
    case Arr(items) => [91] + Joined(PrintItems(items)) + [93]
    case Obj(members) => [123] + JoinedMembers(PrintMembers(members)) + [125]
  }

  function PrintItems(items: seq<Json>): (r: seq<Text>)
    ensures |r| == |items|
  {
    if items == [] then [] else [Print(items[0])] + PrintItems(items[1..])
  }

  function PrintMembers(members: seq<Keyed<Json>>): (r: seq<Keyed<Text>>)
    ensures |r| == |members|
  {
    if members == [] then [] else [Keyed(members[0].key, Print(members[0].value))] + PrintMembers(members[1..])
  }

  lemma {:induction false} InsertPrinted(m: Keyed<Json>, s: seq<Keyed<Json>>)
    ensures PrintMembers(Insert(m, s)) == Insert(Keyed(m.key, Print(m.value)), PrintMembers(s))
  {
    if s == [] || Less(m.key, s[0].key) {
      assert ([m] + s)[1..] == s;
    } else {
      InsertPrinted(m, s[1..]);
      assert ([s[0]] + Insert(m, s[1..]))[1..] == Insert(m, s[1..]);
      assert PrintMembers(s)[1..] == PrintMembers(s[1..]);
    }
  }

  lemma {:induction false} SortPrinted(s: seq<Keyed<Json>>)
    ensures PrintMembers(Sort(s)) == Sort(PrintMembers(s))
  {
    if s != [] {
      SortPrinted(s[1..]);
      InsertPrinted(s[0], Sort(s[1..]));
      assert PrintMembers(s)[1..] == PrintMembers(s[1..]);
    }
  }

  /** The printer fails exactly on an unprintable part or a depth beyond the limit, and otherwise prints the normal
      form. */
  lemma {:induction false} CanonicalPrintsNormal(v: Json, depth: nat)
    ensures CanonicalAt(v, depth)
         == if Printable(v) && Fits(v, MAX_DEPTH - depth) then Some(Print(Normal(v))) else None
  {
    PrintsNormal(v, depth);
  }

  ghost predicate PrintsAt(v: Json, depth: nat) {
    CanonicalAt(v, depth) == if Printable(v) && Fits(v, MAX_DEPTH - depth) then Some(Print(Normal(v))) else None
  }

  lemma {:induction false} PrintsNormal(v: Json, depth: nat)
    ensures PrintsAt(v, depth)
    decreases v
  {
    match v
    case Arr(items) =>
      ItemsPrintNormal(items, depth + 1);
      ArrayPrints(items, depth);
    case Obj(members) =>
      MembersPrintNormal(members, depth + 1);
      ObjectPrints(members, depth);
    case _ => ScalarPrints(v, depth);
  }

  lemma {:induction false} ScalarPrints(v: Json, depth: nat)
    requires !v.Arr? && !v.Obj?
    ensures PrintsAt(v, depth)
  {
  }

  lemma {:induction false} ArrayPrints(items: seq<Json>, depth: nat)
    requires CanonicalItems(items, depth + 1)
          == if forall i :: 0 <= i < |items| ==> Printable(items[i]) && Fits(items[i], MAX_DEPTH - (depth + 1))
             then Some(PrintItems(NormalItems(items))) else None
    ensures PrintsAt(Arr(items), depth)
  {
  }

  lemma {:induction false} ObjectPrints(members: seq<Keyed<Json>>, depth: nat)
    requires CanonicalMembers(members, depth + 1)
          == if forall i :: 0 <= i < |members| ==>
                  Printable(members[i].value) && Fits(members[i].value, MAX_DEPTH - (depth + 1))
             then Some(PrintMembers(NormalMembers(members))) else None
    ensures PrintsAt(Obj(members), depth)
  {
    SortPrinted(NormalMembers(members));
  }

  lemma {:induction false} ItemsPrintNormal(items: seq<Json>, depth: nat)
    ensures CanonicalItems(items, depth)
         == if forall i :: 0 <= i < |items| ==> Printable(items[i]) && Fits(items[i], MAX_DEPTH - depth)
            then Some(PrintItems(NormalItems(items))) else None
    decreases items
  {
    if items != [] {
      PrintsNormal(items[0], depth);
      assert PrintsAt(items[0], depth);
      ItemsPrintNormal(items[1..], depth);
      assert items == [items[0]] + items[1..];
      assert NormalItems(items)[1..] == NormalItems(items[1..]);
    }
  }

  lemma {:induction false} MembersPrintNormal(members: seq<Keyed<Json>>, depth: nat)
    ensures CanonicalMembers(members, depth)
         == if forall i :: 0 <= i < |members| ==>
                 Printable(members[i].value) && Fits(members[i].value, MAX_DEPTH - depth)
            then Some(PrintMembers(NormalMembers(members))) else None
    decreases members
  {
    if members != [] {
      PrintsNormal(members[0].value, depth);
      assert PrintsAt(members[0].value, depth);
      MembersPrintNormal(members[1..], depth);
      assert members == [members[0]] + members[1..];
      assert NormalMembers(members)[1..] == NormalMembers(members[1..]);
    }
  }
}
