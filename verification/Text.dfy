module Options {
  datatype Option<+T> = None | Some(value: T)
}

/** Text as JavaScript holds it: a sequence of UTF-16 code units, compared unit by unit. */
module Text {
  type Unit = u: int | 0 <= u < 0x1_0000
  type Text = seq<Unit>

  const QUOTE: Unit := 34
  const COMMA: Unit := 44
  const COLON: Unit := 58
  const BACKSLASH: Unit := 92

  /** The code units of an ASCII literal. */
  function Ascii(s: string): (t: Text)
    ensures |t| == |s|
    ensures forall i :: 0 <= i < |s| ==> t[i] == AsciiUnit(s[i])
  {
    seq(|s|, i requires 0 <= i < |s| => AsciiUnit(s[i]))
  }

  function AsciiUnit(c: char): Unit {
    if c as int < 0x1_0000 then c as int else 0xFFFD
  }

  predicate Lead(u: Unit) { 0xD800 <= u < 0xDC00 }

  predicate Trail(u: Unit) { 0xDC00 <= u < 0xE000 }

  /** No lone surrogate, so encoding the text as UTF-8 loses nothing. */
  predicate WellFormed(t: Text) {
    if t == [] then true
    else if Lead(t[0]) then |t| > 1 && Trail(t[1]) && WellFormed(t[2..])
    else !Trail(t[0]) && WellFormed(t[1..])
  }

  lemma {:induction false} WellFormedConcat(a: Text, b: Text)
    requires WellFormed(a) && WellFormed(b)
    ensures WellFormed(a + b)
    decreases |a|
  {
    if a == [] {
      assert a + b == b;
    } else if Lead(a[0]) {
      assert (a + b)[2..] == a[2..] + b;
      WellFormedConcat(a[2..], b);
    } else {
      assert (a + b)[1..] == a[1..] + b;
      WellFormedConcat(a[1..], b);
    }
  }

  /** The order `Array.prototype.sort` gives strings: by code unit, a proper prefix first. */
  predicate Less(a: Text, b: Text) {
    if b == [] then false
    else if a == [] then true
    else if a[0] != b[0] then a[0] < b[0]
    else Less(a[1..], b[1..])
  }

  lemma {:induction false} LessIrreflexive(a: Text)
    ensures !Less(a, a)
    decreases |a|
  {
    if a != [] { LessIrreflexive(a[1..]); }
  }

  lemma {:induction false} LessTransitive(a: Text, b: Text, c: Text)
    requires Less(a, b) && Less(b, c)
    ensures Less(a, c)
    decreases |a|
  {
    if a != [] && a[0] == b[0] == c[0] { LessTransitive(a[1..], b[1..], c[1..]); }
  }

  lemma {:induction false} LessTotal(a: Text, b: Text)
    requires a != b
    ensures Less(a, b) || Less(b, a)
    decreases |a|
  {
    if a != [] && b != [] && a[0] == b[0] {
      assert a == [a[0]] + a[1..] && b == [b[0]] + b[1..];
      LessTotal(a[1..], b[1..]);
    }
  }
}

/** A JavaScript object as its own enumerable members, in enumeration order, and sorting by key. */
module Members {
  import opened Text
  import opened Options

  datatype Keyed<T> = Keyed(key: Text, value: T)

  ghost function Keys<T>(s: seq<Keyed<T>>): set<Text>
  {
    set m | m in s :: m.key
  }

  predicate Distinct<T>(s: seq<Keyed<T>>) {
    forall i, j :: 0 <= i < j < |s| ==> s[i].key != s[j].key
  }

  predicate Sorted<T>(s: seq<Keyed<T>>) {
    forall i, j :: 0 <= i < j < |s| ==> Less(s[i].key, s[j].key)
  }

  function Insert<T>(m: Keyed<T>, s: seq<Keyed<T>>): seq<Keyed<T>> {
    if s == [] || Less(m.key, s[0].key) then [m] + s else [s[0]] + Insert(m, s[1..])
  }

  function Sort<T>(s: seq<Keyed<T>>): seq<Keyed<T>> {
    if s == [] then [] else Insert(s[0], Sort(s[1..]))
  }

  lemma {:induction false} InsertMembers<T>(m: Keyed<T>, s: seq<Keyed<T>>)
    ensures multiset(Insert(m, s)) == multiset{m} + multiset(s)
  {
    if s == [] || Less(m.key, s[0].key) {
    } else {
      InsertMembers(m, s[1..]);
      assert s == [s[0]] + s[1..];
    }
  }

  lemma {:induction false} InsertSorted<T>(m: Keyed<T>, s: seq<Keyed<T>>)
    requires Sorted(s) && m.key !in Keys(s)
    ensures Sorted(Insert(m, s))
  {
    if s == [] {
    } else if Less(m.key, s[0].key) {
      forall i | 0 < i < |s| ensures Less(m.key, s[i].key) {
        LessTransitive(m.key, s[0].key, s[i].key);
      }
    } else {
      assert s[0] in s;
      LessTotal(m.key, s[0].key);
      var rest := s[1..];
      assert forall x :: x in rest ==> x in s;
      InsertSorted(m, rest);
      InsertedAbove(m, rest, s[0].key);
    }
  }

  lemma {:induction false} InsertedAbove<T>(m: Keyed<T>, rest: seq<Keyed<T>>, key: Text)
    requires Less(key, m.key) && forall i :: 0 <= i < |rest| ==> Less(key, rest[i].key)
    ensures forall x :: x in Insert(m, rest) ==> Less(key, x.key)
  {
    InsertMembers(m, rest);
    forall x | x in Insert(m, rest) ensures Less(key, x.key) {
      assert x in multiset(Insert(m, rest));
      assert x == m || x in multiset(rest);
    }
  }

  lemma {:induction false} SameMembers<T>(s: seq<Keyed<T>>, t: seq<Keyed<T>>)
    requires multiset(s) == multiset(t)
    ensures Keys(s) == Keys(t)
    ensures forall m :: m in s <==> m in t
  {
    forall m ensures m in s <==> m in t {
      assert m in s <==> m in multiset(s);
      assert m in t <==> m in multiset(t);
    }
  }

  /** Sorting keeps every member once and puts keys in increasing order. */
  lemma {:induction false} SortSorts<T>(s: seq<Keyed<T>>)
    requires Distinct(s)
    ensures Sorted(Sort(s)) && multiset(Sort(s)) == multiset(s)
  {
    if s != [] {
      var rest := s[1..];
      assert s == [s[0]] + rest;
      SortSorts(rest);
      SameMembers(Sort(rest), rest);
      forall m | m in rest ensures m.key != s[0].key {
        var i :| 0 <= i < |rest| && rest[i] == m;
        assert s[i + 1] == m;
      }
      InsertSorted(s[0], Sort(rest));
      InsertMembers(s[0], Sort(rest));
    }
  }

  lemma {:induction false} SortedDistinct<T>(s: seq<Keyed<T>>)
    requires Sorted(s)
    ensures Distinct(s)
  {
    forall i, j | 0 <= i < j < |s| ensures s[i].key != s[j].key {
      LessIrreflexive(s[i].key);
    }
  }

  lemma {:induction false} TailKeys<T>(s: seq<Keyed<T>>)
    requires s != [] && Distinct(s)
    ensures Keys(s[1..]) == Keys(s) - {s[0].key}
  {
    forall k | k in Keys(s) - {s[0].key} ensures k in Keys(s[1..]) {
      var i :| 0 <= i < |s| && s[i].key == k;
      assert s[1..][i - 1] == s[i];
    }
    forall k | k in Keys(s[1..]) ensures k in Keys(s) - {s[0].key} {
      var i :| 0 <= i < |s[1..]| && s[1..][i].key == k;
      assert s[i + 1] == s[1..][i];
    }
  }

  lemma {:induction false} NoKeys<T>(s: seq<Keyed<T>>)
    ensures s == [] <==> Keys(s) == {}
  {
    if s != [] {
      assert s[0] in s;
      assert s[0].key in Keys(s);
    }
  }

  lemma {:induction false} SortedHead<T>(s: seq<Keyed<T>>, t: seq<Keyed<T>>)
    requires Sorted(s) && Sorted(t) && Keys(s) == Keys(t) && s != [] && t != []
    ensures s[0].key == t[0].key
  {
    assert s[0] in s && t[0] in t;
    assert s[0].key in Keys(t) && t[0].key in Keys(s);
    var i :| 0 <= i < |s| && s[i].key == t[0].key;
    var j :| 0 <= j < |t| && t[j].key == s[0].key;
    if s[0].key != t[0].key {
      LessTransitive(s[0].key, t[0].key, s[0].key);
      LessIrreflexive(s[0].key);
    }
  }

  ghost predicate Agree<T>(s: seq<Keyed<T>>, t: seq<Keyed<T>>) {
    forall i, j :: 0 <= i < |s| && 0 <= j < |t| && s[i].key == t[j].key ==> s[i].value == t[j].value
  }

  /** Two sorted lists with the same keys, and the same value under each key, are one list. */
  lemma {:induction false} SortedUnique<T>(s: seq<Keyed<T>>, t: seq<Keyed<T>>)
    requires Sorted(s) && Sorted(t) && Keys(s) == Keys(t) && Agree(s, t)
    ensures s == t
    decreases |s|
  {
    NoKeys(s);
    NoKeys(t);
    if s != [] {
      SortedHead(s, t);
      SortedDistinct(s);
      SortedDistinct(t);
      TailKeys(s);
      TailKeys(t);
      SortedUnique(s[1..], t[1..]);
      assert s == [s[0]] + s[1..] && t == [t[0]] + t[1..];
    }
  }

  // ---- Reading and writing one member ----

  function Find<T>(s: seq<Keyed<T>>, key: Text): Option<T> {
    if s == [] then None
    else if s[0].key == key then Some(s[0].value)
    else Find(s[1..], key)
  }

  /** Setting a member that exists keeps its place; a new one goes last. */
  function Assign<T>(s: seq<Keyed<T>>, key: Text, v: T): seq<Keyed<T>> {
    if s == [] then [Keyed(key, v)]
    else if s[0].key == key then [Keyed(key, v)] + s[1..]
    else [s[0]] + Assign(s[1..], key, v)
  }

  function Erase<T>(s: seq<Keyed<T>>, key: Text): seq<Keyed<T>> {
    if s == [] then []
    else if s[0].key == key then s[1..]
    else [s[0]] + Erase(s[1..], key)
  }

  lemma {:induction false} FindsAt<T>(s: seq<Keyed<T>>, i: nat)
    requires Distinct(s) && i < |s|
    ensures Find(s, s[i].key) == Some(s[i].value)
  {
    if i > 0 {
      assert s[0].key != s[i].key;
      assert s[1..][i - 1] == s[i];
      FindsAt(s[1..], i - 1);
    }
  }

  lemma {:induction false} FoundIndex<T>(s: seq<Keyed<T>>, key: Text) returns (i: nat)
    requires Find(s, key).Some?
    ensures i < |s| && s[i] == Keyed(key, Find(s, key).value)
  {
    if s[0].key == key {
      i := 0;
    } else {
      var j := FoundIndex(s[1..], key);
      i := j + 1;
    }
  }

  lemma {:induction false} FoundKeys<T>(s: seq<Keyed<T>>, key: Text)
    ensures key in Keys(s) <==> Find(s, key).Some?
  {
    if Find(s, key).Some? {
      var i := FoundIndex(s, key);
      assert s[i] in s;
    }
    if s != [] && key in Keys(s) {
      var i :| 0 <= i < |s| && s[i].key == key;
      if s[0].key != key {
        assert s[1..][i - 1] == s[i];
        assert s[i] in s[1..];
        FoundKeys(s[1..], key);
      }
    }
  }

  lemma {:induction false} FindAssigned<T>(s: seq<Keyed<T>>, key: Text, v: T, other: Text)
    ensures Find(Assign(s, key, v), other) == if other == key then Some(v) else Find(s, other)
  {
    if s != [] && s[0].key != key { FindAssigned(s[1..], key, v, other); }
  }

  lemma {:induction false} AssignKeys<T>(s: seq<Keyed<T>>, key: Text, v: T)
    ensures Keys(Assign(s, key, v)) == Keys(s) + {key}
  {
    forall x ensures x in Keys(Assign(s, key, v)) <==> x in Keys(s) + {key} {
      FoundKeys(s, x);
      FoundKeys(Assign(s, key, v), x);
      FindAssigned(s, key, v, x);
    }
  }

  lemma {:induction false} AssignDistinct<T>(s: seq<Keyed<T>>, key: Text, v: T)
    requires Distinct(s)
    ensures Distinct(Assign(s, key, v))
    ensures forall m :: m in Assign(s, key, v) ==> m == Keyed(key, v) || m in s
  {
    if s != [] {
      TailKeys(s);
      assert s == [s[0]] + s[1..];
      if s[0].key != key {
        var rest := Assign(s[1..], key, v);
        AssignDistinct(s[1..], key, v);
        AssignKeys(s[1..], key, v);
        forall m | m in rest ensures m.key != s[0].key {
          assert m.key in Keys(rest);
        }
      } else {
        forall m | m in s[1..] ensures m.key != key {
          assert m.key in Keys(s[1..]);
        }
      }
    }
  }

  lemma {:induction false} FindErased<T>(s: seq<Keyed<T>>, key: Text, other: Text)
    requires Distinct(s)
    ensures Find(Erase(s, key), other) == if other == key then None else Find(s, other)
  {
    if s != [] {
      TailKeys(s);
      FoundKeys(s[1..], key);
      if s[0].key != key { FindErased(s[1..], key, other); }
    }
  }

  lemma {:induction false} EraseDistinct<T>(s: seq<Keyed<T>>, key: Text)
    requires Distinct(s)
    ensures Distinct(Erase(s, key))
    ensures forall m :: m in Erase(s, key) ==> m in s && m.key != key
  {
    if s != [] {
      TailKeys(s);
      assert s == [s[0]] + s[1..];
      if s[0].key == key {
        forall m | m in s[1..] ensures m.key != key {
          assert m.key in Keys(s[1..]);
        }
      } else {
        EraseDistinct(s[1..], key);
        forall m | m in Erase(s[1..], key) ensures m.key != s[0].key {
          assert m.key in Keys(s[1..]);
        }
      }
    }
  }
}
