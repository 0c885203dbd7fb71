/** A reader for canonical text, and the two facts it is for: printing loses nothing, and key order never shows. */
module JsonReader {
  import opened Text
  import opened Members
  import opened Options
  import opened JsonLexis
  import opened Json

  // ---- The reader ----

  /** The length of the longest run of number units that starts `t`. */
  function NumberLength(t: Text): (n: nat)
    ensures n <= |t|
  {
    if t != [] && NumberUnit(t[0]) then 1 + NumberLength(t[1..]) else 0
  }

  function OfNumber(n: Number): Json {
    match n
    case Integer(i) => Int(i)
    case Token(t) => Num(t)
  }

  /** The value whose text starts `t`, and the text after it. */
  function ReadValue(t: Text): (r: Option<(Json, Text)>)
    ensures r.Some? ==> |r.value.1| < |t|
    decreases |t|, 0
  {
    if t == [] then None
    else if t[0] == QUOTE then
      match ReadString(t[1..])
      case Some((s, rest)) => Some((Str(s), rest))
      case None => None
    else if t[0] == 91 then
      if |t| > 1 && t[1] == 93 then Some((Arr([]), t[2..]))
      else
        match ReadItems(t[1..])
        case Some((items, rest)) => Some((Arr(items), rest))
        case None => None
    else if t[0] == 123 then
      if |t| > 1 && t[1] == 125 then Some((Obj([]), t[2..]))
      else
        match ReadMembers(t[1..])
        case Some((members, rest)) => Some((Obj(members), rest))
        case None => None
    else if NULL_TEXT <= t then Some((Null, t[4..]))
    else if TRUE_TEXT <= t then Some((Bool(true), t[4..]))
    else if FALSE_TEXT <= t then Some((Bool(false), t[5..]))
    else
      var n := NumberLength(t);
      if n == 0 then None else Some((OfNumber(ReadNumber(t[..n])), t[n..]))
  }

  function ReadItems(t: Text): (r: Option<(seq<Json>, Text)>)
    ensures r.Some? ==> |r.value.1| < |t|
    decreases |t|, 1
  {
    match ReadValue(t)
    case None => None
    case Some((v, rest)) =>
      if rest == [] then None
      else if rest[0] == 93 then Some(([v], rest[1..]))
      else if rest[0] != COMMA then None
      else
        match ReadItems(rest[1..])
        case None => None
        case Some((more, after)) => Some(([v] + more, after))
  }

  function ReadMembers(t: Text): (r: Option<(seq<Keyed<Json>>, Text)>)
    ensures r.Some? ==> |r.value.1| < |t|
    decreases |t|, 1
  {
    if t == [] || t[0] != QUOTE then None
    else
      match ReadString(t[1..])
      case None => None
      case Some((key, colon)) =>
        if colon == [] || colon[0] != COLON then None
        else
          match ReadValue(colon[1..])
          case None => None
          case Some((v, rest)) =>
            if rest == [] then None
            else if rest[0] == 125 then Some(([Keyed(key, v)], rest[1..]))
            else if rest[0] != COMMA then None
            else
              match ReadMembers(rest[1..])
              case None => None
              case Some((more, after)) => Some(([Keyed(key, v)] + more, after))
  }

  /** Text that cannot lengthen a number printed just before it. */
  predicate EndsNumber(rest: Text) { rest == [] || !NumberUnit(rest[0]) }

  lemma {:induction false} NumberEnds(t: Text, rest: Text)
    requires forall i :: 0 <= i < |t| ==> NumberUnit(t[i])
    requires EndsNumber(rest)
    ensures NumberLength(t + rest) == |t|
    decreases |t|
  {
    if t == [] {
      assert t + rest == rest;
    } else {
      assert (t + rest)[1..] == t[1..] + rest;
      NumberEnds(t[1..], rest);
    }
  }

  /** Everything the printer writes about a value whose members stand in printing order. */
  predicate Readable(v: Json) { Regular(v) && Printable(v) }

  lemma {:induction false} ReadsNumber(t: Text, rest: Text)
    requires t != [] && (Digit(t[0]) || t[0] == 45) && forall i :: 0 <= i < |t| ==> NumberUnit(t[i])
    requires EndsNumber(rest)
    ensures ReadValue(t + rest) == Some((OfNumber(ReadNumber(t)), rest))
  {
    NumberEnds(t, rest);
    var all := t + rest;
    assert all[0] == t[0] && all[..|t|] == t && all[|t|..] == rest;
    assert NULL_TEXT[0] == 110 && TRUE_TEXT[0] == 116 && FALSE_TEXT[0] == 102;
  }

  lemma {:induction false} ReadsWord(v: Json, rest: Text)
    requires v.Null? || v.Bool?
    ensures ReadValue(Print(v) + rest) == Some((v, rest))
  {
    assert NULL_TEXT[0] == 110 && TRUE_TEXT[0] == 116 && FALSE_TEXT[0] == 102;
    var all := Print(v) + rest;
    assert all[0] == Print(v)[0] && all[|Print(v)|..] == rest;
  }

  lemma {:induction false} ReadsQuoted(s: Text, rest: Text)
    ensures (Quote(s) + rest)[0] == QUOTE
    ensures ReadString((Quote(s) + rest)[1..]) == Some((s, rest))
  {
    EscapeReads(s, rest);
    assert (Quote(s) + rest)[1..] == Closed(s, rest);
  }

  /** A value's text never starts with the bracket that would close an empty container. */
  lemma {:induction false} Starts(v: Json)
    requires Readable(v)
    ensures Print(v) != [] && Print(v)[0] != 93 && Print(v)[0] != 125
  {
    assert NULL_TEXT[0] == 110 && TRUE_TEXT[0] == 116 && FALSE_TEXT[0] == 102;
  }

  lemma {:induction false} Bracketed(open: Unit, body: Text, close: Unit, rest: Text)
    ensures var t := [open] + body + [close] + rest;
      && |t| > 1 && t[0] == open
      && t[1..] == body + ([close] + rest)
      && (body == [] ==> t[1] == close && t[2..] == rest)
      && (body != [] ==> t[1] == body[0])
  {
  }

  lemma {:induction false} ReadsArray(t: Text, items: seq<Json>, rest: Text)
    requires |t| > 1 && t[0] == 91
    requires if items == [] then t[1] == 93 && t[2..] == rest
             else t[1] != 93 && ReadItems(t[1..]) == Some((items, rest))
    ensures ReadValue(t) == Some((Arr(items), rest))
  {
  }

  lemma {:induction false} ReadsObject(t: Text, members: seq<Keyed<Json>>, rest: Text)
    requires |t| > 1 && t[0] == 123
    requires if members == [] then t[1] == 125 && t[2..] == rest
             else t[1] == QUOTE && ReadMembers(t[1..]) == Some((members, rest))
    ensures ReadValue(t) == Some((Obj(members), rest))
  {
  }

  /** Reading back what was printed gives the value and leaves the rest of the text. */
  lemma {:induction false} ReadsPrinted(v: Json, rest: Text)
    requires Readable(v) && EndsNumber(rest)
    ensures ReadValue(Print(v) + rest) == Some((v, rest))
    decreases v
  {
    match v
    case Null => ReadsWord(v, rest);
    case Bool(_) => ReadsWord(v, rest);
    case Int(n) =>
      IntTextReads(n);
      ReadsNumber(IntText(n), rest);
    case Num(token) =>
      ReadsNumber(token, rest);
    case Str(s) =>
      ReadsQuoted(s, rest);
    case Arr(items) =>
      var body := Joined(PrintItems(items));
      Bracketed(91, body, 93, rest);
      if items != [] { ReadsItems(items, rest); }
      ReadsArray([91] + body + [93] + rest, items, rest);
    case Obj(members) =>
      var body := JoinedMembers(PrintMembers(members));
      Bracketed(123, body, 125, rest);
      if members != [] { ReadsMembers(members, rest); }
      ReadsObject([123] + body + [125] + rest, members, rest);
  }

  lemma {:induction false} FirstItem(items: seq<Json>)
    requires items != [] && Readable(items[0])
    ensures Joined(PrintItems(items)) != [] && Joined(PrintItems(items))[0] == Print(items[0])[0]
    ensures Joined(PrintItems(items))[0] != 93
  {
    Starts(items[0]);
  }

  lemma {:induction false} ReadsItems(items: seq<Json>, rest: Text)
    requires items != [] && forall i :: 0 <= i < |items| ==> Readable(items[i])
    ensures Joined(PrintItems(items)) != [] && Joined(PrintItems(items))[0] != 93
    ensures ReadItems(Joined(PrintItems(items)) + ([93] + rest)) == Some((items, rest))
    decreases items
  {
    FirstItem(items);
    var first := Print(items[0]);
    if |items| == 1 {
      ReadsPrinted(items[0], [93] + rest);
      assert items == [items[0]];
      assert ([93] + rest)[1..] == rest;
    } else {
      var tail := Joined(PrintItems(items[1..])) + ([93] + rest);
      assert PrintItems(items)[1..] == PrintItems(items[1..]);
      assert Joined(PrintItems(items)) + ([93] + rest) == first + ([COMMA] + tail);
      ReadsPrinted(items[0], [COMMA] + tail);
      ReadsItems(items[1..], rest);
      assert ([COMMA] + tail)[1..] == tail;
      assert items == [items[0]] + items[1..];
    }
  }

  /** Members are read one at a time: a member, then the end of the object or a comma and the others. */
  lemma {:induction false} ReadsMember(t: Text, m: Keyed<Json>, colon: Text, after: Text)
    requires t != [] && t[0] == QUOTE && ReadString(t[1..]) == Some((m.key, colon))
    requires colon != [] && colon[0] == COLON && ReadValue(colon[1..]) == Some((m.value, after))
    requires after != []
    ensures after[0] == 125 ==> ReadMembers(t) == Some(([m], after[1..]))
    ensures after[0] == COMMA && ReadMembers(after[1..]).Some? ==>
      ReadMembers(t) == Some(([m] + ReadMembers(after[1..]).value.0, ReadMembers(after[1..]).value.1))
  {
  }

  lemma {:induction false} MemberText(key: Text, value: Text, after: Text)
    ensures var t := Quote(key) + [COLON] + value + after;
      && t != [] && t[0] == QUOTE
      && ReadString(t[1..]) == Some((key, [COLON] + (value + after)))
      && ([COLON] + (value + after))[1..] == value + after
  {
    ReadsQuoted(key, [COLON] + (value + after));
    assert Quote(key) + [COLON] + value + after == Quote(key) + ([COLON] + (value + after));
  }

  lemma {:induction false} Regroup(a: Text, b: Text, c: Text)
    ensures a + b + c == a + (b + c)
  {
  }

  lemma {:induction false} JoinedStep(texts: seq<Keyed<Text>>, close: Text)
    requires texts != []
    ensures JoinedMembers(texts) != [] && JoinedMembers(texts)[0] == QUOTE
    ensures |texts| == 1 ==>
      JoinedMembers(texts) + close == Quote(texts[0].key) + [COLON] + texts[0].value + close
    ensures |texts| > 1 ==>
      JoinedMembers(texts) + close
      == Quote(texts[0].key) + [COLON] + texts[0].value + ([COMMA] + (JoinedMembers(texts[1..]) + close))
  {
    var key := Quote(texts[0].key);
    assert key[0] == QUOTE;
    if |texts| > 1 {
      var head, more := key + [COLON] + texts[0].value, JoinedMembers(texts[1..]);
      assert JoinedMembers(texts) == head + [COMMA] + more;
      Regroup(head + [COMMA], more, close);
      Regroup(head, [COMMA], more + close);
    }
  }

  lemma {:induction false} ReadsMembers(members: seq<Keyed<Json>>, rest: Text)
    requires members != [] && forall i :: 0 <= i < |members| ==> Readable(members[i].value)
    ensures JoinedMembers(PrintMembers(members)) != [] && JoinedMembers(PrintMembers(members))[0] == QUOTE
    ensures ReadMembers(JoinedMembers(PrintMembers(members)) + ([125] + rest)) == Some((members, rest))
    decreases members
  {
    var m, value, texts := members[0], Print(members[0].value), PrintMembers(members);
    var close := [125] + rest;
    JoinedStep(texts, close);
    var after := close;
    if |members| == 1 {
      assert members == [m];
      assert close[1..] == rest;
    } else {
      assert texts[1..] == PrintMembers(members[1..]);
      var tail := JoinedMembers(texts[1..]) + close;
      after := [COMMA] + tail;
      ReadsMembers(members[1..], rest);
      assert after[1..] == tail;
      assert members == [m] + members[1..];
    }
    ReadsPrinted(m.value, after);
    MemberText(m.key, value, after);
    ReadsMember(Quote(m.key) + [COLON] + value + after, m, [COLON] + (value + after), after);
  }
}
