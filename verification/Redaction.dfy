/** Which parts of an image or link address a snapshot keeps. A parameter value can carry an address of its own, encoded
    again and again; it is kept only if nothing at any nested level could be a credential. */
module Redaction {
  import opened Options

  const MARK := "[redacted]"
  const IMAGE_PARAMETERS := {"src", "url", "type", "w", "width", "height", "q", "quality", "fit", "crop", "auto", "fm",
                             "format", "dpr", "v"}
  const NESTED_ADDRESS_DEPTH := 2
  const DECODE_ROUNDS := 4

  datatype Parsed = Parsed(credentials: bool, pathname: string, query: string, fragment: string)

  /** The readings that come from outside: percent-decoding once, lower case, the address parser, and the patterns of a
      token, of the start of an address, and of a long image id with its size. */
  datatype World = World(decode: string -> string, lower: string -> string, parse: string -> Option<Parsed>,
                         isToken: string -> bool, startsAddress: string -> bool, isImageIdSize: string -> bool)

  // ---- Runs of characters between separators.

  predicate Free(s: string, seps: set<char>) { forall i :: 0 <= i < |s| ==> s[i] !in seps }

  /** The length of the longest start without a separator. */
  function Cut(s: string, seps: set<char>): (n: nat)
    ensures n <= |s| && Free(s[..n], seps) && (n < |s| ==> s[n] in seps)
  {
    if s == "" || s[0] in seps then 0
    else
      var n := Cut(s[1..], seps);
      assert s[..n + 1] == [s[0]] + s[1..][..n];
      n + 1
  }

  lemma {:induction false} CutIs(s: string, seps: set<char>, n: nat)
    requires n <= |s| && (forall i :: 0 <= i < n ==> s[i] !in seps) && (n < |s| ==> s[n] in seps)
    ensures Cut(s, seps) == n
  {
    if s != "" && s[0] !in seps { CutIs(s[1..], seps, n - 1); }
  }

  /** The maximal runs without a separator. */
  function Runs(s: string, seps: set<char>): (r: seq<string>)
    decreases |s|
  {
    if s == "" then []
    else if s[0] in seps then Runs(s[1..], seps)
    else [s[..Cut(s, seps)]] + Runs(s[Cut(s, seps)..], seps)
  }

  /** The text with its runs replaced, one by one, and its separators kept. */
  function Rebuild(s: string, seps: set<char>, pieces: seq<string>): string
    requires |pieces| == |Runs(s, seps)|
    decreases |s|
  {
    if s == "" then ""
    else if s[0] in seps then [s[0]] + Rebuild(s[1..], seps, pieces)
    else pieces[0] + Rebuild(s[Cut(s, seps)..], seps, pieces[1..])
  }

  /** Where runs stand between which separators. */
  function Skeleton(s: string, seps: set<char>): seq<Option<char>>
    decreases |s|
  {
    if s == "" then []
    else if s[0] in seps then [Some(s[0])] + Skeleton(s[1..], seps)
    else [None] + Skeleton(s[Cut(s, seps)..], seps)
  }

  ghost predicate Pieces(pieces: seq<string>, seps: set<char>) {
    forall i :: 0 <= i < |pieces| ==> pieces[i] != "" && Free(pieces[i], seps)
  }

  lemma {:induction false} RunsArePieces(s: string, seps: set<char>)
    ensures Pieces(Runs(s, seps), seps)
    decreases |s|
  {
    if s != "" {
      RunsArePieces(if s[0] in seps then s[1..] else s[Cut(s, seps)..], seps);
    }
  }

  /** A run in front of nothing or of a separator is cut off as it is. */
  lemma {:induction false} CutOff(run: string, rest: string, seps: set<char>)
    requires run != "" && Free(run, seps) && (rest != "" ==> rest[0] in seps)
    ensures Cut(run + rest, seps) == |run| && (run + rest)[|run|..] == rest && (run + rest)[..|run|] == run
  {
    assert (run + rest)[..|run|] == run;
    CutIs(run + rest, seps, |run|);
  }

  lemma {:induction false} RebuildStart(s: string, seps: set<char>, pieces: seq<string>)
    requires |pieces| == |Runs(s, seps)| && (s != "" ==> s[0] in seps)
    ensures Rebuild(s, seps, pieces) != "" ==> Rebuild(s, seps, pieces)[0] in seps
  {}

  /** Replacing runs by pieces without separators keeps the skeleton, and the pieces are the new runs. */
  lemma {:induction false} RebuildKeepsSkeleton(s: string, seps: set<char>, pieces: seq<string>)
    requires |pieces| == |Runs(s, seps)| && Pieces(pieces, seps)
    ensures Skeleton(Rebuild(s, seps, pieces), seps) == Skeleton(s, seps)
    ensures Runs(Rebuild(s, seps, pieces), seps) == pieces
    decreases |s|
  {
    if s == "" {
    } else if s[0] in seps {
      RebuildKeepsSkeleton(s[1..], seps, pieces);
      assert Rebuild(s, seps, pieces)[1..] == Rebuild(s[1..], seps, pieces);
    } else {
      var rest := s[Cut(s, seps)..];
      var built := Rebuild(rest, seps, pieces[1..]);
      RebuildKeepsSkeleton(rest, seps, pieces[1..]);
      RebuildStart(rest, seps, pieces[1..]);
      CutOff(pieces[0], built, seps);
      assert (pieces[0] + built)[0] == pieces[0][0];
      assert pieces == [pieces[0]] + pieces[1..];
    }
  }

  lemma {:induction false} RebuildSame(s: string, seps: set<char>)
    ensures Rebuild(s, seps, Runs(s, seps)) == s
    decreases |s|
  {
    if s != "" {
      if s[0] in seps { RebuildSame(s[1..], seps); } else { RebuildSame(s[Cut(s, seps)..], seps); }
    }
  }

  /** A rebuilt text is the text exactly when every piece is the run it replaced. */
  lemma {:induction false} RebuildIsSameExactly(s: string, seps: set<char>, pieces: seq<string>)
    requires |pieces| == |Runs(s, seps)| && Pieces(pieces, seps)
    ensures Rebuild(s, seps, pieces) == s <==> pieces == Runs(s, seps)
  {
    RebuildKeepsSkeleton(s, seps, pieces);
    RebuildSame(s, seps);
  }

  // ---- Decoding and patterns.

  function DecodedTimes(w: World, text: string, n: nat): string {
    if n == 0 then text else w.decode(DecodedTimes(w, text, n - 1))
  }

  /** Decoded until it stops changing, if that takes no more than four rounds. */
  function FullyDecoded(w: World, text: string): Option<string> { Settled(w, text, DECODE_ROUNDS) }

  function Settled(w: World, current: string, left: nat): Option<string>
    decreases left
  {
    if w.decode(current) == current then Some(current)
    else if left == 0 then None
    else Settled(w, w.decode(current), left - 1)
  }

  /** The decoding loop. */
  method DecodeFully(w: World, text: string) returns (r: Option<string>)
    ensures r == FullyDecoded(w, text)
  {
    var current := text;
    for round := 0 to DECODE_ROUNDS
      invariant Settled(w, current, DECODE_ROUNDS - round) == FullyDecoded(w, text)
    {
      var next := w.decode(current);
      if next == current { return Some(current); }
      current := next;
    }
    r := if w.decode(current) == current then Some(current) else None;
  }

  lemma {:induction false} DecodedShift(w: World, text: string, n: nat)
    ensures DecodedTimes(w, w.decode(text), n) == DecodedTimes(w, text, n + 1)
  {
    if n > 0 { DecodedShift(w, text, n - 1); }
  }

  lemma {:induction false} SettledMeans(w: World, text: string, left: nat)
    ensures match Settled(w, text, left)
      case Some(r) => w.decode(r) == r && exists n :: 0 <= n <= left && r == DecodedTimes(w, text, n)
      case None => forall n :: 0 <= n <= left ==> w.decode(DecodedTimes(w, text, n)) != DecodedTimes(w, text, n)
    decreases left
  {
    if w.decode(text) == text {
      assert DecodedTimes(w, text, 0) == text;
    } else if left > 0 {
      SettledMeans(w, w.decode(text), left - 1);
      match Settled(w, text, left)
      case Some(r) =>
        var n :| 0 <= n <= left - 1 && r == DecodedTimes(w, w.decode(text), n);
        DecodedShift(w, text, n);
      case None =>
        forall n | 0 <= n <= left ensures w.decode(DecodedTimes(w, text, n)) != DecodedTimes(w, text, n) {
          if n > 0 { DecodedShift(w, text, n - 1); }
        }
    }
  }

  /** The result is a fixed point within four decodings; there is none only when the value still changes after four. */
  lemma {:induction false} FullyDecodedMeans(w: World, text: string)
    ensures match FullyDecoded(w, text)
      case Some(r) => w.decode(r) == r && exists n :: 0 <= n <= DECODE_ROUNDS && r == DecodedTimes(w, text, n)
      case None => forall n :: 0 <= n <= DECODE_ROUNDS ==>
        w.decode(DecodedTimes(w, text, n)) != DecodedTimes(w, text, n)
  {
    SettledMeans(w, text, DECODE_ROUNDS);
  }

  predicate HasAny(s: string, chars: set<char>) { !Free(s, chars) }

  predicate Contains(s: string, part: string) { exists i :: 0 <= i <= |s| && part <= s[i..] }

  predicate IsDigits(s: string) { s != "" && forall i :: 0 <= i < |s| ==> '0' <= s[i] <= '9' }

  predicate IsPlain(s: string) {
    forall i :: 0 <= i < |s| ==>
      'A' <= s[i] <= 'Z' || 'a' <= s[i] <= 'z' || '0' <= s[i] <= '9' || s[i] in {'_', '.', ':', '+', '-'}
  }

  /** One quotation mark less at either end. */
  function Unquoted(s: string): string {
    var front := if s != "" && s[0] in {'"', '\''} then s[1..] else s;
    if front != "" && front[|front| - 1] in {'"', '\''} then front[..|front| - 1] else front
  }

  predicate LooksNested(w: World, nested: string) {
    w.startsAddress(nested) || HasAny(nested, {'?', '#', '&', ';', '='})
  }

  // ---- Options in a path segment.

  /** Cut at every occurrence of a character. */
  function Split(s: string, c: char): (parts: seq<string>)
    ensures parts != []
    decreases |s|
  {
    var n := Cut(s, {c});
    if n == |s| then [s] else [s[..n]] + Split(s[n + 1..], c)
  }

  function Join(parts: seq<string>, c: char): string
    requires parts != []
  {
    if |parts| == 1 then parts[0] else parts[0] + [c] + Join(parts[1..], c)
  }

  function RedactedOption(w: World, option: string): string {
    var split := Cut(option, {'='});
    if split == |option| then if IsDigits(option) then option else MARK
    else if w.lower(option[..split]) in IMAGE_PARAMETERS && IsPlain(option[split + 1..]) then option
    else option[..split] + "=" + MARK
  }

  predicate KeepsHead(w: World, head: string) {
    || '=' !in head || w.isImageIdSize(head)
    || forall option :: option in Split(head, ',') ==> '=' in option && RedactedOption(w, option) == option
  }

  function RedactedOptions(w: World, segment: string): string {
    Join(RedactedParts(w, Split(segment, ';')), ';')
  }

  function RedactedParts(w: World, parts: seq<string>): (r: seq<string>)
    requires parts != []
    ensures |r| == |parts|
  {
    [if KeepsHead(w, parts[0]) then parts[0] else MARK]
    + seq(|parts| - 1, i requires 0 <= i < |parts| - 1 => RedactedOption(w, parts[i + 1]))
  }

  // ---- The rules.

  datatype Rule = ImageRule | LinkRule

  function Left(depth: nat): nat { if depth < NESTED_ADDRESS_DEPTH then NESTED_ADDRESS_DEPTH - depth else 0 }

  const QUERY := {'&', ';'}
  const PATH := {'/'}

  function HarmlessQuery(w: World, query: string, depth: nat, rule: Rule): string
    decreases Left(depth), 6
  {
    var runs := Runs(query, QUERY);
    Rebuild(query, QUERY, seq(|runs|, i requires 0 <= i < |runs| => RedactedPair(w, runs[i], depth, rule)))
  }

  function RedactedPair(w: World, pair: string, depth: nat, rule: Rule): string
    decreases Left(depth), 5
  {
    var split := Cut(pair, {'='});
    if split == |pair| then if IsDigits(w.decode(pair)) then pair else MARK
    else if Keeps(w, w.decode(pair[..split]), w.decode(pair[split + 1..]), depth, rule) then pair
    else pair[..split] + "=" + MARK
  }

  predicate Keeps(w: World, name: string, value: string, depth: nat, rule: Rule)
    decreases Left(depth), 4
  {
    || HarmlessParameter(w, name, value, depth)
    || (rule.LinkRule? && FullyDecoded(w, value).Some? && IsDigits(FullyDecoded(w, value).value))
  }

  predicate HarmlessParameter(w: World, name: string, value: string, depth: nat)
    decreases Left(depth), 3
  {
    && w.lower(name) in IMAGE_PARAMETERS
    && FullyDecoded(w, value).Some?
    && !w.isToken(FullyDecoded(w, value).value)
    && var nested := Unquoted(FullyDecoded(w, value).value);
      if LooksNested(w, nested) then HarmlessAddress(w, nested, depth)
      else RedactedPath(w, nested, depth) == nested
  }

  function RedactedPath(w: World, path: string, depth: nat): string
    decreases Left(depth), 2
  {
    var runs := Runs(path, PATH);
    Rebuild(path, PATH, seq(|runs|, i requires 0 <= i < |runs| => RedactedSegment(w, runs[i], depth)))
  }

  function RedactedSegment(w: World, segment: string, depth: nat): string
    decreases Left(depth), 1
  {
    match FullyDecoded(w, segment)
    case None => MARK
    case Some(decoded) =>
      if w.isToken(decoded) then MARK
      else if HasAny(decoded, {'?', '#', '&'}) || Contains(decoded, "//") then
        if HarmlessAddress(w, decoded, depth) then segment else MARK
      else if !HasAny(decoded, {';', '='}) then segment
      else if decoded != segment then MARK
      else RedactedOptions(w, segment)
  }

  predicate HarmlessAddress(w: World, text: string, depth: nat)
    decreases Left(depth), 0
  {
    && depth < NESTED_ADDRESS_DEPTH
    && match w.parse(text)
      case None => false
      case Some(parsed) =>
        && !parsed.credentials
        && RedactedPath(w, parsed.pathname, depth + 1) == parsed.pathname
        && HarmlessQuery(w, parsed.query, depth + 1, ImageRule) == parsed.query
        && HarmlessQuery(w, parsed.fragment, depth + 1, ImageRule) == parsed.fragment
  }

  // ---- Redacting a query twice.

  lemma {:induction false} MarkIsAPiece()
    ensures MARK != "" && Free(MARK, QUERY) && Free(MARK, PATH) && Free(MARK, {'='}) && Free(MARK, {';'})
  {}

  lemma {:induction false} CutMarked(name: string)
    requires Free(name, {'='})
    ensures Cut(name + "=" + MARK, {'='}) == |name|
    ensures (name + "=" + MARK)[..|name|] == name && (name + "=" + MARK)[|name| + 1..] == MARK
  {
    var pair := name + "=" + MARK;
    assert pair[|name|] == '=' && pair[..|name|] == name;
    CutIs(pair, {'='}, |name|);
  }

  /** A redacted pair is again a pair, and redacting it again changes nothing, whatever the rule. */
  lemma {:induction false} RedactedPairSettles(w: World, pair: string, depth: nat, rule: Rule)
    requires pair != "" && Free(pair, QUERY)
    ensures var once := RedactedPair(w, pair, depth, rule);
      && once != "" && Free(once, QUERY) && RedactedPair(w, once, depth, rule) == once
  {
    MarkIsAPiece();
    var split := Cut(pair, {'='});
    if split == |pair| {
      MarkedStays(w, depth, rule);
    } else {
      MarkedPairStays(w, pair[..split], depth, rule);
    }
  }

  lemma {:induction false} MarkedPairStays(w: World, name: string, depth: nat, rule: Rule)
    requires Free(name, {'='})
    ensures RedactedPair(w, name + "=" + MARK, depth, rule) == name + "=" + MARK
  {
    CutMarked(name);
  }

  lemma {:induction false} MarkedStays(w: World, depth: nat, rule: Rule)
    ensures RedactedPair(w, MARK, depth, rule) == MARK
  {
    MarkIsAPiece();
    assert MARK[..|MARK|] == MARK;
    CutIs(MARK, {'='}, |MARK|);
  }

  ghost function RedactedPairs(w: World, query: string, depth: nat, rule: Rule): (r: seq<string>)
    ensures |r| == |Runs(query, QUERY)|
  {
    var runs := Runs(query, QUERY);
    seq(|runs|, i requires 0 <= i < |runs| => RedactedPair(w, runs[i], depth, rule))
  }

  lemma {:induction false} RedactedPairsArePieces(w: World, query: string, depth: nat, rule: Rule)
    ensures Pieces(RedactedPairs(w, query, depth, rule), QUERY)
    ensures forall i :: 0 <= i < |Runs(query, QUERY)| ==> var once := RedactedPairs(w, query, depth, rule)[i];
      RedactedPair(w, once, depth, rule) == once
  {
    RunsArePieces(query, QUERY);
    forall i | 0 <= i < |Runs(query, QUERY)|
      ensures var once := RedactedPairs(w, query, depth, rule)[i];
        once != "" && Free(once, QUERY) && RedactedPair(w, once, depth, rule) == once
    {
      RedactedPairSettles(w, Runs(query, QUERY)[i], depth, rule);
    }
  }

  /** Redacting keeps every separator and the number of pairs, and redacts pair by pair. */
  lemma {:induction false} RedactionKeepsPairs(w: World, query: string, depth: nat, rule: Rule)
    ensures var once := HarmlessQuery(w, query, depth, rule);
      && Skeleton(once, QUERY) == Skeleton(query, QUERY) && |Runs(once, QUERY)| == |Runs(query, QUERY)|
      && forall i :: 0 <= i < |Runs(query, QUERY)| ==>
        Runs(once, QUERY)[i] == RedactedPair(w, Runs(query, QUERY)[i], depth, rule)
  {
    RedactedPairsArePieces(w, query, depth, rule);
    assert HarmlessQuery(w, query, depth, rule) == Rebuild(query, QUERY, RedactedPairs(w, query, depth, rule));
    RebuildKeepsSkeleton(query, QUERY, RedactedPairs(w, query, depth, rule));
  }

  /** Redacting a query twice is redacting it once. */
  lemma {:induction false} RedactingTwiceIsRedactingOnce(w: World, query: string, depth: nat, rule: Rule)
    ensures var once := HarmlessQuery(w, query, depth, rule); HarmlessQuery(w, once, depth, rule) == once
  {
    var pairs := RedactedPairs(w, query, depth, rule);
    var once := Rebuild(query, QUERY, pairs);
    RedactedPairsArePieces(w, query, depth, rule);
    RebuildKeepsSkeleton(query, QUERY, pairs);
    assert HarmlessQuery(w, query, depth, rule) == once;
    assert RedactedPairs(w, once, depth, rule) == pairs;
    assert HarmlessQuery(w, once, depth, rule) == Rebuild(once, QUERY, pairs);
    RebuildSame(once, QUERY);
  }

  // ---- What a kept value contains, at every nested level.

  /** What is met when a value is taken apart, without judging any of it. */
  datatype Finding =
    | Value(decoded: string)                  // a value or path segment, fully decoded
    | Undecodable                             // one that still changes after four decodings
    | Name(name: string)                      // the name of a nested parameter
    | Nameless(pair: string)                  // a nested pair without a name
    | OptionList(segment: string, decoded: string)  // a path segment with options
    | TooDeep | Unparsable | Credentials      // a nested address that is one level too deep, no address, or has a user

  /** Digits, an image parameter with a plain value, or already redacted. */
  predicate PlainOption(w: World, option: string) {
    || IsDigits(option)
    || option == MARK
    || ('=' in option
        && var split := Cut(option, {'='});
          || option[split + 1..] == MARK
          || (w.lower(option[..split]) in IMAGE_PARAMETERS && IsPlain(option[split + 1..])))
  }

  /** The part before the first semicolon: nothing assigned in it, an image id with its size, or a list of plain
      assignments. */
  predicate PlainHead(w: World, head: string) {
    || '=' !in head
    || w.isImageIdSize(head)
    || forall option :: option in Split(head, ',') ==> '=' in option && PlainOption(w, option)
  }

  predicate PlainOptions(w: World, parts: seq<string>)
    requires parts != []
  {
    PlainHead(w, parts[0]) && forall i :: 0 < i < |parts| ==> PlainOption(w, parts[i])
  }

  ghost predicate Clean(w: World, f: Finding) {
    match f
    case Value(decoded) => !w.isToken(decoded)
    case Name(name) => w.lower(w.decode(name)) in IMAGE_PARAMETERS
    case Nameless(pair) => IsDigits(w.decode(pair)) || pair == MARK
    case OptionList(segment, decoded) => decoded == segment && PlainOptions(w, Split(segment, ';'))
    case _ => false
  }

  ghost predicate AllClean(w: World, found: set<Finding>) { forall f :: f in found ==> Clean(w, f) }

  ghost function Union(sets: seq<set<Finding>>): set<Finding> {
    if sets == [] then {} else sets[0] + Union(sets[1..])
  }

  lemma {:induction false} AllCleanUnion(w: World, sets: seq<set<Finding>>)
    ensures AllClean(w, Union(sets)) <==> forall i :: 0 <= i < |sets| ==> AllClean(w, sets[i])
  {
    if sets != [] {
      AllCleanUnion(w, sets[1..]);
      AllCleanBoth(w, sets[0], Union(sets[1..]));
      assert forall i :: 0 < i < |sets| ==> sets[i] == sets[1..][i - 1];
    }
  }

  lemma {:induction false} AllCleanBoth(w: World, a: set<Finding>, b: set<Finding>)
    ensures AllClean(w, a + b) <==> AllClean(w, a) && AllClean(w, b)
  {
    assert a <= a + b && b <= a + b;
  }

  lemma {:induction false} AllCleanOne(w: World, f: Finding)
    ensures AllClean(w, {f}) <==> Clean(w, f)
  {
    assert f in {f};
  }

  ghost function FoundInParameter(w: World, value: string, depth: nat): set<Finding>
    decreases Left(depth), 4
  {
    match FullyDecoded(w, value)
    case None => {Undecodable}
    case Some(decoded) =>
      var nested := Unquoted(decoded);
      {Value(decoded)}
      + if LooksNested(w, nested) then FoundInAddress(w, nested, depth) else FoundInPath(w, nested, depth)
  }

  ghost function FoundInPair(w: World, pair: string, depth: nat): set<Finding>
    decreases Left(depth), 5
  {
    var split := Cut(pair, {'='});
    if split == |pair| then {Nameless(pair)}
    else if pair[split + 1..] == MARK then {}
    else {Name(pair[..split])} + FoundInParameter(w, w.decode(pair[split + 1..]), depth)
  }

  ghost function FoundInQuery(w: World, query: string, depth: nat): set<Finding>
    decreases Left(depth), 6, 1
  {
    Union(FoundByPair(w, query, depth))
  }

  ghost function FoundByPair(w: World, query: string, depth: nat): (r: seq<set<Finding>>)
    ensures |r| == |Runs(query, QUERY)|
    ensures forall i :: 0 <= i < |r| ==> r[i] == FoundInPair(w, Runs(query, QUERY)[i], depth)
    decreases Left(depth), 6, 0
  {
    var runs := Runs(query, QUERY);
    seq(|runs|, i requires 0 <= i < |runs| => FoundInPair(w, runs[i], depth))
  }

  ghost function FoundInPath(w: World, path: string, depth: nat): set<Finding>
    decreases Left(depth), 2, 1
  {
    Union(FoundBySegment(w, path, depth))
  }

  ghost function FoundBySegment(w: World, path: string, depth: nat): (r: seq<set<Finding>>)
    ensures |r| == |Runs(path, PATH)|
    ensures forall i :: 0 <= i < |r| ==> r[i] == FoundInSegment(w, Runs(path, PATH)[i], depth)
    decreases Left(depth), 2, 0
  {
    var runs := Runs(path, PATH);
    seq(|runs|, i requires 0 <= i < |runs| => FoundInSegment(w, runs[i], depth))
  }

  ghost function FoundInSegment(w: World, segment: string, depth: nat): set<Finding>
    decreases Left(depth), 1
  {
    if segment == MARK then {}
    else
      match FullyDecoded(w, segment)
      case None => {Undecodable}
      case Some(decoded) =>
        {Value(decoded)}
        + if HasAny(decoded, {'?', '#', '&'}) || Contains(decoded, "//") then FoundInAddress(w, decoded, depth)
          else if HasAny(decoded, {';', '='}) then {OptionList(segment, decoded)}
          else {}
  }

  ghost function FoundInAddress(w: World, text: string, depth: nat): set<Finding>
    decreases Left(depth), 0
  {
    if depth >= NESTED_ADDRESS_DEPTH then {TooDeep}
    else
      match w.parse(text)
      case None => {Unparsable}
      case Some(parsed) =>
        (if parsed.credentials then {Credentials} else {})
        + FoundInPath(w, parsed.pathname, depth + 1)
        + FoundInQuery(w, parsed.query, depth + 1) + FoundInQuery(w, parsed.fragment, depth + 1)
  }

  // ---- Kept exactly when all of it is clean.

  lemma {:induction false} SplitFree(s: string, c: char, seps: set<char>)
    requires Free(s, seps)
    ensures forall part :: part in Split(s, c) ==> Free(part, seps)
    decreases |s|
  {
    var n := Cut(s, {c});
    if n < |s| { SplitFree(s[n + 1..], c, seps); }
  }

  lemma {:induction false} JoinFree(parts: seq<string>, c: char, seps: set<char>)
    requires parts != [] && c !in seps && forall i :: 0 <= i < |parts| ==> Free(parts[i], seps)
    ensures Free(Join(parts, c), seps) && (|parts| > 1 ==> Join(parts, c) != "")
  {
    if |parts| > 1 { JoinFree(parts[1..], c, seps); }
  }

  lemma {:induction false} OptionFree(w: World, option: string, seps: set<char>)
    requires Free(option, seps) && Free(MARK, seps) && '=' !in seps
    ensures Free(RedactedOption(w, option), seps)
  {}

  /** Redacting a segment gives a segment: never empty, without a slash. */
  lemma {:induction false} SegmentStaysAPiece(w: World, segment: string, depth: nat)
    requires segment != "" && Free(segment, PATH)
    ensures RedactedSegment(w, segment, depth) != "" && Free(RedactedSegment(w, segment, depth), PATH)
  {
    MarkIsAPiece();
    OptionsStayAPiece(w, segment);
  }

  lemma {:induction false} OptionsStayAPiece(w: World, segment: string)
    requires segment != "" && Free(segment, PATH)
    ensures RedactedOptions(w, segment) != "" && Free(RedactedOptions(w, segment), PATH)
  {
    var parts := Split(segment, ';');
    SplitFree(segment, ';', PATH);
    OptionsFree(w, parts);
    JoinFree(RedactedParts(w, parts), ';', PATH);
  }

  lemma {:induction false} OptionsFree(w: World, parts: seq<string>)
    requires parts != [] && forall p :: p in parts ==> Free(p, PATH)
    ensures forall i :: 0 <= i < |parts| ==> Free(RedactedParts(w, parts)[i], PATH)
  {
    MarkIsAPiece();
    forall i | 0 <= i < |parts| ensures Free(RedactedParts(w, parts)[i], PATH) {
      assert parts[i] in parts;
      if i > 0 { OptionFree(w, parts[i], PATH); }
    }
  }

  lemma {:induction false} JoinCons(head: string, rest: seq<string>, c: char)
    requires rest != []
    ensures Join([head] + rest, c) == head + [c] + Join(rest, c)
  {
    assert ([head] + rest)[1..] == rest;
  }

  lemma {:induction false} JoinSplit(s: string, c: char)
    ensures Join(Split(s, c), c) == s
    decreases |s|
  {
    var n := Cut(s, {c});
    if n < |s| {
      JoinSplit(s[n + 1..], c);
      JoinCons(s[..n], Split(s[n + 1..], c), c);
      assert s == s[..n] + [s[n]] + s[n + 1..];
    }
  }

  lemma {:induction false} SplitCons(head: string, rest: string, c: char)
    requires Free(head, {c})
    ensures Split(head + [c] + rest, c) == [head] + Split(rest, c)
  {
    var s := head + [c] + rest;
    CutIs(s, {c}, |head|);
    assert s[..|head|] == head && s[|head| + 1..] == rest;
  }

  lemma {:induction false} SplitOne(s: string, c: char)
    requires Free(s, {c})
    ensures Split(s, c) == [s]
  {
    CutIs(s, {c}, |s|);
  }

  lemma {:induction false} SplitJoin(parts: seq<string>, c: char)
    requires parts != [] && forall i :: 0 <= i < |parts| ==> Free(parts[i], {c})
    ensures Split(Join(parts, c), c) == parts
  {
    if |parts| == 1 {
      SplitOne(parts[0], c);
    } else {
      SplitJoin(parts[1..], c);
      SplitCons(parts[0], Join(parts[1..], c), c);
    }
  }

  lemma {:induction false} SplitLacks(s: string, c: char)
    ensures forall i :: 0 <= i < |Split(s, c)| ==> Free(Split(s, c)[i], {c})
    decreases |s|
  {
    var n := Cut(s, {c});
    if n < |s| { SplitLacks(s[n + 1..], c); }
  }

  lemma {:induction false} AssignmentParts(option: string, n: nat)
    requires n < |option| && option[n] == '='
    ensures option[..n] + "=" + MARK == option <==> option[n + 1..] == MARK
    ensures option != MARK && !IsDigits(option) && '=' in option
  {
    assert option == option[..n] + "=" + option[n + 1..];
    assert '=' !in MARK;
    assert (option[..n] + "=" + MARK)[n + 1..] == MARK;
  }

  lemma {:induction false} OptionKeptExactly(w: World, option: string)
    ensures RedactedOption(w, option) == option <==> PlainOption(w, option)
  {
    var split := Cut(option, {'='});
    if split < |option| {
      AssignmentParts(option, split);
    } else {
      assert option == option[..split] && '=' !in option;
    }
  }

  lemma {:induction false} HeadKept(w: World, head: string)
    ensures KeepsHead(w, head) <==> PlainHead(w, head)
  {
    forall option | option in Split(head, ',')
      ensures RedactedOption(w, option) == option <==> PlainOption(w, option)
    {
      OptionKeptExactly(w, option);
    }
  }

  lemma {:induction false} HeadKeptExactly(w: World, head: string)
    ensures (if KeepsHead(w, head) then head else MARK) == head <==> PlainHead(w, head)
  {
    HeadKept(w, head);
    assert '=' !in MARK;
  }

  lemma {:induction false} PartsKeptExactly(w: World, parts: seq<string>)
    requires parts != []
    ensures RedactedParts(w, parts) == parts <==> PlainOptions(w, parts)
  {
    var kept := RedactedParts(w, parts);
    HeadKeptExactly(w, parts[0]);
    forall i | 0 < i < |parts| ensures kept[i] == parts[i] <==> PlainOption(w, parts[i]) {
      OptionKeptExactly(w, parts[i]);
    }
    SameByParts(kept, parts);
  }

  lemma {:induction false} SameByParts(kept: seq<string>, parts: seq<string>)
    requires |kept| == |parts| > 0
    ensures kept == parts <==> kept[0] == parts[0] && forall i :: 0 < i < |parts| ==> kept[i] == parts[i]
  {
  }

  lemma {:induction false} RedactedPartsLack(w: World, parts: seq<string>)
    requires parts != [] && forall i :: 0 <= i < |parts| ==> Free(parts[i], {';'})
    ensures forall i :: 0 <= i < |parts| ==> Free(RedactedParts(w, parts)[i], {';'})
  {
    forall i | 0 <= i < |parts| ensures Free(RedactedParts(w, parts)[i], {';'}) {
      if i > 0 { OptionFree(w, parts[i], {';'}); }
    }
  }

  /** An option list is kept exactly when its head and each of its parameters is plain. */
  lemma {:induction false} OptionsKeptExactly(w: World, segment: string)
    ensures RedactedOptions(w, segment) == segment <==> PlainOptions(w, Split(segment, ';'))
  {
    var parts := Split(segment, ';');
    JoinSplit(segment, ';');
    SplitLacks(segment, ';');
    RedactedPartsLack(w, parts);
    SplitJoin(RedactedParts(w, parts), ';');
    PartsKeptExactly(w, parts);
  }

  lemma {:induction false} MarkSegmentStays(w: World, depth: nat)
    ensures RedactedSegment(w, MARK, depth) == MARK
  {
    MarkIsAPiece();
    assert MARK[..|MARK|] == MARK;
    CutIs(MARK, {';'}, |MARK|);
    assert Split(MARK, ';') == [MARK];
  }

  lemma {:induction false} PathSameExactly(w: World, path: string, depth: nat)
    ensures RedactedPath(w, path, depth) == path <==>
      forall i :: 0 <= i < |Runs(path, PATH)| ==> RedactedSegment(w, Runs(path, PATH)[i], depth) == Runs(path, PATH)[i]
  {
    var runs := Runs(path, PATH);
    var pieces := seq(|runs|, i requires 0 <= i < |runs| => RedactedSegment(w, runs[i], depth));
    RunsArePieces(path, PATH);
    forall i | 0 <= i < |runs| ensures pieces[i] != "" && Free(pieces[i], PATH) {
      SegmentStaysAPiece(w, runs[i], depth);
    }
    RebuildIsSameExactly(path, PATH, pieces);
    assert RedactedPath(w, path, depth) == Rebuild(path, PATH, pieces);
  }

  lemma {:induction false} QuerySameExactly(w: World, query: string, depth: nat, rule: Rule)
    ensures HarmlessQuery(w, query, depth, rule) == query <==>
      forall i :: 0 <= i < |Runs(query, QUERY)| ==>
        RedactedPair(w, Runs(query, QUERY)[i], depth, rule) == Runs(query, QUERY)[i]
  {
    var pairs := RedactedPairs(w, query, depth, rule);
    RedactedPairsArePieces(w, query, depth, rule);
    RebuildIsSameExactly(query, QUERY, pairs);
    assert HarmlessQuery(w, query, depth, rule) == Rebuild(query, QUERY, pairs);
  }

  /** A segment is kept exactly when everything in it is clean. */
  lemma {:induction false} SegmentKeptExactly(w: World, segment: string, depth: nat)
    requires segment != "" && Free(segment, PATH)
    ensures RedactedSegment(w, segment, depth) == segment <==> AllClean(w, FoundInSegment(w, segment, depth))
    decreases Left(depth), 1
  {
    if segment == MARK {
      MarkSegmentStays(w, depth);
    } else if FullyDecoded(w, segment).None? {
      assert Undecodable in FoundInSegment(w, segment, depth);
    } else {
      AddressKeptExactly(w, FullyDecoded(w, segment).value, depth);
      DecodedKeptExactly(w, segment, depth);
    }
  }

  lemma {:induction false} DecodedKeptExactly(w: World, segment: string, depth: nat)
    requires segment != MARK && FullyDecoded(w, segment).Some?
    requires var decoded := FullyDecoded(w, segment).value;
      HarmlessAddress(w, decoded, depth) <==> AllClean(w, FoundInAddress(w, decoded, depth))
    ensures RedactedSegment(w, segment, depth) == segment <==> AllClean(w, FoundInSegment(w, segment, depth))
  {
    OptionsKeptExactly(w, segment);
  }

  lemma {:induction false} PathKeptExactly(w: World, path: string, depth: nat)
    ensures RedactedPath(w, path, depth) == path <==> AllClean(w, FoundInPath(w, path, depth))
    decreases Left(depth), 2
  {
    var runs := Runs(path, PATH);
    RunsArePieces(path, PATH);
    PathSameExactly(w, path, depth);
    var sets := FoundBySegment(w, path, depth);
    forall i | 0 <= i < |sets| ensures RedactedSegment(w, runs[i], depth) == runs[i] <==> AllClean(w, sets[i]) {
      SegmentKeptExactly(w, runs[i], depth);
    }
    AllCleanUnion(w, sets);
    assert FoundInPath(w, path, depth) == Union(sets);
  }

  /** An address is harmless exactly when everything in it is clean, all the way down. */
  lemma {:induction false} AddressKeptExactly(w: World, text: string, depth: nat)
    ensures HarmlessAddress(w, text, depth) <==> AllClean(w, FoundInAddress(w, text, depth))
    decreases Left(depth), 0
  {
    if depth < NESTED_ADDRESS_DEPTH && w.parse(text).Some? {
      var parsed := w.parse(text).value;
      PathKeptExactly(w, parsed.pathname, depth + 1);
      QueryKeptExactly(w, parsed.query, depth + 1);
      QueryKeptExactly(w, parsed.fragment, depth + 1);
      AddressParts(w, text, depth, parsed);
    }
  }

  lemma {:induction false} AddressParts(w: World, text: string, depth: nat, parsed: Parsed)
    requires depth < NESTED_ADDRESS_DEPTH && w.parse(text) == Some(parsed)
    ensures AllClean(w, FoundInAddress(w, text, depth)) <==>
      && !parsed.credentials && AllClean(w, FoundInPath(w, parsed.pathname, depth + 1))
      && AllClean(w, FoundInQuery(w, parsed.query, depth + 1))
      && AllClean(w, FoundInQuery(w, parsed.fragment, depth + 1))
  {
    var found := FoundInAddress(w, text, depth);
    assert FoundInPath(w, parsed.pathname, depth + 1) <= found && FoundInQuery(w, parsed.query, depth + 1) <= found;
    assert FoundInQuery(w, parsed.fragment, depth + 1) <= found;
    if parsed.credentials { assert Credentials in found; }
  }

  lemma {:induction false} ParameterKeptExactly(w: World, name: string, value: string, depth: nat)
    ensures HarmlessParameter(w, name, value, depth) <==>
      w.lower(name) in IMAGE_PARAMETERS && AllClean(w, FoundInParameter(w, value, depth))
    decreases Left(depth), 4
  {
    if FullyDecoded(w, value).Some? {
      var decoded := FullyDecoded(w, value).value;
      var nested := Unquoted(decoded);
      AddressKeptExactly(w, nested, depth);
      PathKeptExactly(w, nested, depth);
      assert Value(decoded) in FoundInParameter(w, value, depth);
      var rest := if LooksNested(w, nested) then FoundInAddress(w, nested, depth) else FoundInPath(w, nested, depth);
      assert FoundInParameter(w, value, depth) == {Value(decoded)} + rest;
      assert AllClean(w, FoundInParameter(w, value, depth)) <==> !w.isToken(decoded) && AllClean(w, rest);
    } else {
      assert Undecodable in FoundInParameter(w, value, depth);
    }
  }

  lemma {:induction false} NamedPairParts(w: World, pair: string, depth: nat)
    requires var split := Cut(pair, {'='}); split < |pair| && pair[split + 1..] != MARK
    ensures var split := Cut(pair, {'='});
      AllClean(w, FoundInPair(w, pair, depth)) <==>
        && w.lower(w.decode(pair[..split])) in IMAGE_PARAMETERS
        && AllClean(w, FoundInParameter(w, w.decode(pair[split + 1..]), depth))
  {
    var split := Cut(pair, {'='});
    var inner := FoundInParameter(w, w.decode(pair[split + 1..]), depth);
    var found := FoundInPair(w, pair, depth);
    assert found == {Name(pair[..split])} + inner;
    AllCleanBoth(w, {Name(pair[..split])}, inner);
    AllCleanOne(w, Name(pair[..split]));
  }

  lemma {:induction false} NamedPairSame(w: World, pair: string, depth: nat)
    requires Cut(pair, {'='}) < |pair|
    ensures var split := Cut(pair, {'='});
      RedactedPair(w, pair, depth, ImageRule) == pair <==>
        || pair[split + 1..] == MARK
        || HarmlessParameter(w, w.decode(pair[..split]), w.decode(pair[split + 1..]), depth)
  {
    var split := Cut(pair, {'='});
    var marked := pair[..split] + "=" + MARK;
    assert pair == pair[..split] + "=" + pair[split + 1..];
    assert marked[split + 1..] == MARK;
  }

  lemma {:induction false} NamelessPairSame(w: World, pair: string, depth: nat)
    requires Cut(pair, {'='}) == |pair|
    ensures RedactedPair(w, pair, depth, ImageRule) == pair <==> AllClean(w, FoundInPair(w, pair, depth))
  {
    assert FoundInPair(w, pair, depth) == {Nameless(pair)};
    AllCleanOne(w, Nameless(pair));
  }

  /** A pair of an image address is kept exactly when it already carries the mark or everything in it is clean. */
  lemma {:induction false} PairKeptExactly(w: World, pair: string, depth: nat)
    requires pair != "" && Free(pair, QUERY)
    ensures RedactedPair(w, pair, depth, ImageRule) == pair <==> AllClean(w, FoundInPair(w, pair, depth))
    decreases Left(depth), 5
  {
    var split := Cut(pair, {'='});
    if split == |pair| {
      NamelessPairSame(w, pair, depth);
    } else {
      NamedPairSame(w, pair, depth);
      if pair[split + 1..] != MARK {
        ParameterKeptExactly(w, w.decode(pair[..split]), w.decode(pair[split + 1..]), depth);
        NamedPairParts(w, pair, depth);
      }
    }
  }

  /** A query under the image rule is kept exactly when everything found in it, however deeply nested and however often
      encoded, is clean: no token, no undecodable value, no user in an address, no address deeper than two, only names
      known to be harmless. */
  lemma {:induction false} QueryKeptExactly(w: World, query: string, depth: nat)
    ensures HarmlessQuery(w, query, depth, ImageRule) == query <==> AllClean(w, FoundInQuery(w, query, depth))
    decreases Left(depth), 6
  {
    var runs := Runs(query, QUERY);
    RunsArePieces(query, QUERY);
    QuerySameExactly(w, query, depth, ImageRule);
    var sets := FoundByPair(w, query, depth);
    forall i | 0 <= i < |sets| ensures RedactedPair(w, runs[i], depth, ImageRule) == runs[i] <==> AllClean(w, sets[i]) {
      PairKeptExactly(w, runs[i], depth);
    }
    AllCleanUnion(w, sets);
    assert FoundInQuery(w, query, depth) == Union(sets);
  }

  /** A pair of a link is kept in one more case: a value of digits only, under any name. */
  lemma {:induction false} LinkPairKeptExactly(w: World, pair: string, depth: nat)
    requires pair != "" && Free(pair, QUERY)
    ensures var split := Cut(pair, {'='});
      RedactedPair(w, pair, depth, LinkRule) == pair <==>
        || AllClean(w, FoundInPair(w, pair, depth))
        || (split < |pair| && FullyDecoded(w, w.decode(pair[split + 1..])).Some?
            && IsDigits(FullyDecoded(w, w.decode(pair[split + 1..])).value))
  {
    var split := Cut(pair, {'='});
    PairKeptExactly(w, pair, depth);
    if split < |pair| {
      NamedPairSame(w, pair, depth);
      assert pair == pair[..split] + "=" + pair[split + 1..];
      assert (pair[..split] + "=" + MARK)[split + 1..] == MARK;
    }
  }
}
