/** Keys, buttons and drag interception that an action may have left down: what the guard records, how it releases them,
    and what is left. */
module InputGuard {
  import opened Faults

  datatype Input = Button(button: string) | Key(code: string) | DragIntercept

  datatype KeyState = PossiblyDown | Down | Up
  datatype Intercept = PossiblyOn | On | Off

  predicate Distinct<T(==)>(s: seq<T>) { forall i, j :: 0 <= i < j < |s| ==> s[i] != s[j] }

  predicate IsUp(name: string, states: map<string, KeyState>) { name !in states || states[name] == Up }

  /** The names not up, in the order they were first pressed. */
  function NotUp(order: seq<string>, states: map<string, KeyState>): seq<string> {
    if order == [] then []
    else NotUp(order[..|order| - 1], states) + (if IsUp(order[|order| - 1], states) then [] else [order[|order| - 1]])
  }

  lemma {:induction false} NotUpMeans(order: seq<string>, states: map<string, KeyState>, name: string)
    ensures name in NotUp(order, states) <==> name in order && !IsUp(name, states)
  {
    if order != [] {
      NotUpMeans(order[..|order| - 1], states, name);
      assert order == order[..|order| - 1] + [order[|order| - 1]];
    }
  }

  lemma {:induction false} NotUpStep(order: seq<string>, states: map<string, KeyState>, k: nat)
    requires k < |order|
    ensures NotUp(order[..k + 1], states)
         == NotUp(order[..k], states) + (if IsUp(order[k], states) then [] else [order[k]])
  {
    assert order[..k + 1][..k] == order[..k];
  }

  lemma {:induction false} NotUpDistinct(order: seq<string>, states: map<string, KeyState>)
    requires Distinct(order)
    ensures Distinct(NotUp(order, states))
  {
    if order != [] {
      NotUpDistinct(order[..|order| - 1], states);
      NotUpMeans(order[..|order| - 1], states, order[|order| - 1]);
    }
  }

  lemma {:induction false} NotUpFront(order: seq<string>, states: map<string, KeyState>)
    requires order != []
    ensures NotUp(order, states) == (if IsUp(order[0], states) then [] else [order[0]]) + NotUp(order[1..], states)
  {
    if |order| == 1 {
      assert order[..0] == [] && order[1..] == [] && NotUp([], states) == [];
    } else {
      var short, last := order[..|order| - 1], order[|order| - 1];
      NotUpFront(short, states);
      NotUpStep(order[1..], states, |order| - 2);
      assert short[1..] == order[1..][..|order| - 2] && order[1..][..|order| - 1] == order[1..];
    }
  }

  lemma {:induction false} DistinctConcat<T>(a: seq<T>, b: seq<T>)
    requires Distinct(a) && Distinct(b) && forall x :: x in a ==> x !in b
    ensures Distinct(a + b)
  {
    forall i, j | 0 <= i < j < |a + b| ensures (a + b)[i] != (a + b)[j] {
      if i < |a| <= j { assert (a + b)[i] in a && (a + b)[j] in b; }
    }
  }

  function ButtonInputs(buttons: seq<string>): (r: seq<Input>)
    ensures |r| == |buttons| && forall i :: 0 <= i < |r| ==> r[i] == Button(buttons[i])
  {
    seq(|buttons|, i requires 0 <= i < |buttons| => Button(buttons[i]))
  }

  function Keys(codes: seq<string>): (r: seq<Input>)
    ensures |r| == |codes| && forall i :: 0 <= i < |r| ==> r[i] == Key(codes[i])
  {
    seq(|codes|, i requires 0 <= i < |codes| => Key(codes[i]))
  }

  function Reversed<T>(s: seq<T>): (r: seq<T>)
    ensures |r| == |s| && forall i :: 0 <= i < |s| ==> r[i] == s[|s| - 1 - i]
  {
    seq(|s|, i requires 0 <= i < |s| => s[|s| - 1 - i])
  }

  lemma {:induction false} ReversedSame<T>(s: seq<T>)
    ensures (forall x :: x in Reversed(s) <==> x in s) && (Distinct(s) ==> Distinct(Reversed(s)))
  {
    forall x | x in s ensures x in Reversed(s) {
      var k :| 0 <= k < |s| && s[k] == x;
      assert Reversed(s)[|s| - 1 - k] == x;
    }
  }

  /** The list names each input of the set once. */
  ghost predicate Lists(order: seq<Input>, inputs: iset<Input>) {
    Distinct(order) && forall i :: i in order <==> i in inputs
  }

  /** `released` were taken off `before`, leaving `after`. */
  ghost predicate TookOff(before: iset<Input>, after: iset<Input>, released: seq<Input>) {
    && Distinct(released) && (forall i :: i in released ==> i in before)
    && forall i :: i in after <==> i in before && i !in released
  }

  lemma {:induction false} TookOffMore(a: iset<Input>, b: iset<Input>, c: iset<Input>, x: seq<Input>, y: seq<Input>)
    requires TookOff(a, b, x) && TookOff(b, c, y)
    ensures TookOff(a, c, x + y)
  {
    DistinctConcat(x, y);
  }

  lemma {:induction false} TookOffOne(a: iset<Input>, b: iset<Input>, c: iset<Input>, x: seq<Input>, i: Input)
    requires TookOff(a, b, x) && i in b && forall j :: j in c <==> j in b && j != i
    ensures TookOff(a, c, x + [i])
  {
    TookOffMore(a, b, c, x, [i]);
  }

  lemma {:induction false} KeysMember(codes: seq<string>, i: Input)
    ensures i in Keys(codes) <==> i.Key? && i.code in codes
  {
    if i.Key? && i.code in codes {
      var k :| 0 <= k < |codes| && codes[k] == i.code;
      assert Keys(codes)[k] == i;
    }
  }

  lemma {:induction false} ButtonsMember(buttons: seq<string>, i: Input)
    ensures i in ButtonInputs(buttons) <==> i.Button? && i.button in buttons
  {
    if i.Button? && i.button in buttons {
      var k :| 0 <= k < |buttons| && buttons[k] == i.button;
      assert ButtonInputs(buttons)[k] == i;
    }
  }

  /** Keys, buttons and drag interception one after the other, in either order of the first two. */
  lemma {:induction false} OrdersList(codes: seq<string>, buttons: seq<string>, drag: seq<Input>, inputs: iset<Input>)
    requires Distinct(codes) && Distinct(buttons) && (drag == [] || drag == [DragIntercept])
    requires forall c :: c in codes <==> Key(c) in inputs
    requires forall b :: b in buttons <==> Button(b) in inputs
    requires drag != [] <==> DragIntercept in inputs
    ensures Lists(Keys(codes) + ButtonInputs(buttons) + drag, inputs)
    ensures Lists(ButtonInputs(buttons) + Keys(codes) + drag, inputs)
  {
    forall i: Input
      ensures (i in Keys(codes) <==> i.Key? && i.code in codes)
      ensures (i in ButtonInputs(buttons) <==> i.Button? && i.button in buttons)
    {
      KeysMember(codes, i);
      ButtonsMember(buttons, i);
    }
    DistinctConcat(Keys(codes), ButtonInputs(buttons));
    DistinctConcat(ButtonInputs(buttons), Keys(codes));
    DistinctConcat(Keys(codes) + ButtonInputs(buttons), drag);
    DistinctConcat(ButtonInputs(buttons) + Keys(codes), drag);
    forall i: Input ensures i in Keys(codes) + ButtonInputs(buttons) + drag <==> i in inputs {
      match i case Key(_) => case Button(_) => case DragIntercept =>
    }
    forall i: Input ensures i in ButtonInputs(buttons) + Keys(codes) + drag <==> i in inputs {
      match i case Key(_) => case Button(_) => case DragIntercept =>
    }
  }

  ghost predicate Within(held: set<Input>, base: set<Input>, recorded: iset<Input>) {
    forall i :: i in held ==> i in base || i in recorded
  }

  // ---- Commands and what becomes of them.

  /** The page behind a session: which inputs it may hold down, whatever anyone recorded. */
  class Session {
    ghost var held: set<Input>

    constructor ()
      ensures held == {}
    {
      held := {};
    }
  }

  /** The commands of one action, in the order they are sent; `script` says what becomes of each. */
  class Line {
    const script: nat -> Fault
    var sent: nat

    constructor (script: nat -> Fault)
      ensures this.script == script && sent == 0
    {
      this.script := script;
      sent := 0;
    }

    /** A press that failed may still have happened. */
    method Press(page: Session, i: Input) returns (ok: bool)
      modifies this`sent, page
      ensures sent == old(sent) + 1 && ok == script(old(sent)).Fine?
      ensures page.held == old(page.held) + (if script(old(sent)).NoEffect? then {} else {i})
    {
      ok := script(sent).Fine?;
      page.held := page.held + (if script(sent).NoEffect? then {} else {i});
      sent := sent + 1;
    }

    method Release(page: Session, i: Input) returns (ok: bool)
      modifies this`sent, page
      ensures sent == old(sent) + 1 && ok == script(old(sent)).Fine?
      ensures page.held == old(page.held) - (if script(old(sent)).NoEffect? then {} else {i})
    {
      ok := script(sent).Fine?;
      page.held := page.held - (if script(sent).NoEffect? then {} else {i});
      sent := sent + 1;
    }

    /** Any other command: it may fail, and presses nothing. */
    method Send() returns (ok: bool)
      modifies this`sent
      ensures sent == old(sent) + 1 && ok == script(old(sent)).Fine?
    {
      ok := script(sent).Fine?;
      sent := sent + 1;
    }
  }

  /** Where a sequence of releases stands: what was tried, how many commands were sent, what was acknowledged, and what
      the page still holds. */
  datatype Log = Log(attempts: seq<Input>, sent: nat, released: seq<Input>, held: set<Input>)

  /** One more release: it counts as released when it is acknowledged, and is off the page when it took effect. */
  function LogStep(script: nat -> Fault, l: Log, i: Input): Log {
    Log(l.attempts + [i], l.sent + 1,
        if script(l.sent).Fine? then l.released + [i] else l.released,
        if script(l.sent).NoEffect? then l.held else l.held - {i})
  }

  function LogAfter(script: nat -> Fault, l: Log, order: seq<Input>): Log {
    if order == [] then l else LogStep(script, LogAfter(script, l, order[..|order| - 1]), order[|order| - 1])
  }

  lemma {:induction false} LogOne(script: nat -> Fault, l: Log, order: seq<Input>, i: Input)
    ensures LogAfter(script, l, order + [i]) == LogStep(script, LogAfter(script, l, order), i)
  {
    assert (order + [i])[..|order|] == order;
  }

  lemma {:induction false} LogBoth(script: nat -> Fault, l: Log, a: seq<Input>, b: seq<Input>)
    ensures LogAfter(script, l, a + b) == LogAfter(script, LogAfter(script, l, a), b)
    decreases |b|
  {
    if b == [] {
      assert a + b == a;
    } else {
      var short, last := b[..|b| - 1], b[|b| - 1];
      LogBoth(script, l, a, short);
      LogOne(script, l, a + short, last);
      assert a + b == (a + short) + [last];
    }
  }

  predicate AllFine(script: nat -> Fault, at: nat, count: nat) {
    count == 0 || (AllFine(script, at, count - 1) && script(at + count - 1).Fine?)
  }

  /** Every input of the order is tried once, one command each; everything tried comes to be released exactly when every
      release is acknowledged. */
  lemma {:induction false} LogMeans(script: nat -> Fault, l: Log, order: seq<Input>)
    ensures var n := LogAfter(script, l, order);
      && n.attempts == l.attempts + order && n.sent == l.sent + |order|
      && |n.released| <= |l.released| + |order|
      && (|n.released| == |l.released| + |order| <==> AllFine(script, l.sent, |order|))
      && (AllFine(script, l.sent, |order|) ==> n.released == l.released + order)
    decreases |order|
  {
    if order == [] {
      assert l.attempts + order == l.attempts && l.released + order == l.released;
    } else {
      var short, last := order[..|order| - 1], order[|order| - 1];
      LogMeans(script, l, short);
      assert order == short + [last];
      assert l.attempts + order == (l.attempts + short) + [last];
      assert l.released + order == (l.released + short) + [last];
    }
  }

  datatype ReleaseState = NotRequired | Released | PartiallyReleased | Unknown

  datatype Evidence = Evidence(state: ReleaseState, releasedInputs: seq<Input>, residualInputs: seq<Input>)

  class InputStateGuard {
    var pointerOrder: seq<string>
    var pointerButtons: map<string, KeyState>
    var keyOrder: seq<string>
    var keys: map<string, KeyState>
    var dragIntercept: Intercept
    /** Every release ever tried, in order. */
    var releaseAttempts: seq<Input>

    ghost predicate Valid()
      reads this
    {
      && Distinct(pointerOrder) && (forall b :: b in pointerOrder <==> b in pointerButtons)
      && Distinct(keyOrder) && (forall c :: c in keyOrder <==> c in keys)
    }

    /** The guard records the input as possibly down. */
    ghost predicate Residual(i: Input)
      reads this
    {
      match i
      case Button(b) => b in pointerButtons && pointerButtons[b] != Up
      case Key(c) => c in keys && keys[c] != Up
      case DragIntercept => dragIntercept != Off
    }

    /** What the page may hold, beyond what it held before, is recorded. */
    ghost predicate Covers(s: Session, base: set<Input>)
      reads this, s
    {
      Within(s.held, base, Residuals())
    }

    ghost function Residuals(): iset<Input>
      reads this
    {
      iset i | Residual(i)
    }

    constructor ()
      ensures Valid() && (forall i :: !Residual(i)) && releaseAttempts == []
    {
      pointerOrder, pointerButtons, keyOrder, keys := [], map[], [], map[];
      dragIntercept, releaseAttempts := Off, [];
    }

    method PointerPossiblyDown(b: string)
      requires Valid()
      modifies this`pointerOrder, this`pointerButtons
      ensures Valid() && b in pointerButtons && forall i :: Residual(i) <==> i == Button(b) || old(Residual(i))
    {
      if b !in pointerButtons { pointerOrder := pointerOrder + [b]; }
      pointerButtons := pointerButtons[b := PossiblyDown];
    }

    /** An acknowledged press; one already known to be up stays up. */
    method PointerDown(b: string)
      requires Valid()
      modifies this`pointerOrder, this`pointerButtons
      ensures Valid()
      ensures forall i :: Residual(i) <==> old(Residual(i)) || (i == Button(b) && b !in old(pointerButtons))
    {
      if b in pointerButtons && pointerButtons[b] == Up { return; }
      if b !in pointerButtons { pointerOrder := pointerOrder + [b]; }
      pointerButtons := pointerButtons[b := Down];
    }

    method PointerUp(b: string)
      requires Valid()
      modifies this`pointerOrder, this`pointerButtons
      ensures Valid() && pointerButtons == old(pointerButtons)[b := Up]
      ensures old(b in pointerButtons) ==> pointerOrder == old(pointerOrder)
      ensures forall i :: Residual(i) <==> i != Button(b) && old(Residual(i))
    {
      if b !in pointerButtons { pointerOrder := pointerOrder + [b]; }
      pointerButtons := pointerButtons[b := Up];
    }

    method KeyPossiblyDown(code: string)
      requires Valid()
      modifies this`keyOrder, this`keys
      ensures Valid() && forall i :: Residual(i) <==> i == Key(code) || old(Residual(i))
    {
      if code !in keys { keyOrder := keyOrder + [code]; }
      keys := keys[code := PossiblyDown];
    }

    method KeyDown(code: string)
      requires Valid()
      modifies this`keys
      ensures Valid()
      ensures forall i :: Residual(i) <==> old(Residual(i)) || (i == Key(code) && code in old(keys))
    {
      if code in keys { keys := keys[code := Down]; }
    }

    method KeyUp(code: string)
      requires Valid()
      modifies this`keys
      ensures Valid() && keys == if code in old(keys) then old(keys)[code := Up] else old(keys)
      ensures forall i :: Residual(i) <==> i != Key(code) && old(Residual(i))
    {
      if code in keys { keys := keys[code := Up]; }
    }

    method DragInterceptPossiblyOn()
      modifies this`dragIntercept
      ensures forall i :: Residual(i) <==> i == DragIntercept || old(Residual(i))
    {
      dragIntercept := PossiblyOn;
    }

    method DragInterceptOn()
      modifies this`dragIntercept
      ensures forall i :: Residual(i) <==> i == DragIntercept || old(Residual(i))
    {
      dragIntercept := On;
    }

    method DragInterceptOff()
      modifies this`dragIntercept
      ensures forall i :: Residual(i) <==> i != DragIntercept && old(Residual(i))
    {
      dragIntercept := Off;
    }

    // ---- What is left down, and the order in which releases are tried.

    ghost function Listing(): seq<Input>
      reads this
    {
      ButtonInputs(NotUp(pointerOrder, pointerButtons)) + Keys(NotUp(keyOrder, keys))
      + (if dragIntercept != Off then [DragIntercept] else [])
    }

    /** Keys by last first press, then buttons by first press, then drag interception. */
    ghost function ReleaseOrder(): seq<Input>
      reads this
    {
      Keys(Reversed(NotUp(keyOrder, keys))) + ButtonInputs(NotUp(pointerOrder, pointerButtons))
      + (if dragIntercept != Off then [DragIntercept] else [])
    }

    /** Both list what is recorded as possibly down, each input once. */
    lemma {:induction false} OrdersListResiduals()
      requires Valid()
      ensures Lists(Listing(), Residuals()) && Lists(ReleaseOrder(), Residuals()) && |ReleaseOrder()| == |Listing()|
    {
      NotUpDistinct(pointerOrder, pointerButtons);
      NotUpDistinct(keyOrder, keys);
      var ps, ks := NotUp(pointerOrder, pointerButtons), NotUp(keyOrder, keys);
      var drag := if dragIntercept != Off then [DragIntercept] else [];
      ReversedSame(ks);
      forall b: string ensures b in ps <==> Button(b) in Residuals() { NotUpMeans(pointerOrder, pointerButtons, b); }
      forall c: string ensures c in ks <==> Key(c) in Residuals() { NotUpMeans(keyOrder, keys, c); }
      OrdersList(ks, ps, drag, Residuals());
      OrdersList(Reversed(ks), ps, drag, Residuals());
    }

    method ResidualButtons() returns (output: seq<Input>)
      requires Valid()
      ensures output == ButtonInputs(NotUp(pointerOrder, pointerButtons))
    {
      output := [];
      for k := 0 to |pointerOrder|
        invariant output == ButtonInputs(NotUp(pointerOrder[..k], pointerButtons))
      {
        ButtonsOneMore(pointerOrder, pointerButtons, k);
        if pointerButtons[pointerOrder[k]] != Up { output := output + [Button(pointerOrder[k])]; }
      }
      assert pointerOrder[..|pointerOrder|] == pointerOrder;
    }

    method ResidualInputs() returns (output: seq<Input>)
      requires Valid()
      ensures output == Listing() && Lists(output, Residuals())
    {
      output := ResidualButtons();
      ghost var pointers := output;
      for k := 0 to |keyOrder|
        invariant output == pointers + Keys(NotUp(keyOrder[..k], keys))
      {
        NotUpStep(keyOrder, keys, k);
        if keys[keyOrder[k]] != Up { output := output + [Key(keyOrder[k])]; }
      }
      assert keyOrder[..|keyOrder|] == keyOrder;
      if dragIntercept != Off { output := output + [DragIntercept]; }
      OrdersListResiduals();
    }

    ghost function LogOf(line: Line, page: Session, released: seq<Input>): Log
      reads this`releaseAttempts, line, page
    {
      Log(releaseAttempts, line.sent, released, page.held)
    }

    method Attempt(line: Line, page: Session, i: Input) returns (ok: bool)
      modifies this`releaseAttempts, line`sent, page
      ensures releaseAttempts == old(releaseAttempts) + [i] && line.sent == old(line.sent) + 1
      ensures ok == line.script(old(line.sent)).Fine?
      ensures page.held == if line.script(old(line.sent)).NoEffect? then old(page.held) else old(page.held) - {i}
    {
      releaseAttempts := releaseAttempts + [i];
      ok := line.Release(page, i);
    }

    method ReleaseKey(line: Line, page: Session, ghost base: set<Input>, code: string, ghost start: iset<Input>,
                      released0: seq<Input>) returns (released: seq<Input>)
      requires Valid() && Covers(page, base) && code in keys && keys[code] != Up
      requires TookOff(start, Residuals(), released0)
      modifies this`keys, this`releaseAttempts, line`sent, page
      ensures Valid() && Covers(page, base) && TookOff(start, Residuals(), released)
      ensures LogOf(line, page, released) == LogStep(line.script, old(LogOf(line, page, released0)), Key(code))
      ensures keys == old(keys) || keys == old(keys)[code := Up]
    {
      released := released0;
      ghost var before := Residuals();
      assert Key(code) in before;
      var ok := Attempt(line, page, Key(code));
      if ok {
        KeyUp(code);
        TookOffOne(start, before, Residuals(), released, Key(code));
        released := released + [Key(code)];
      } else {
        assert Residuals() == before;
      }
    }

    method ReleaseKeys(line: Line, page: Session, ghost base: set<Input>) returns (released: seq<Input>)
      requires Valid() && Covers(page, base)
      modifies this`keys, this`releaseAttempts, line`sent, page
      ensures Valid() && Covers(page, base) && TookOff(old(Residuals()), Residuals(), released)
      ensures LogOf(line, page, released)
           == LogAfter(line.script, old(LogOf(line, page, [])), Keys(Reversed(NotUp(keyOrder, old(keys)))))
    {
      released := [];
      ghost var start, states, tried, log := Residuals(), keys, [], LogOf(line, page, []);
      assert NotUp(keyOrder[|keyOrder|..], keys) == [];
      for index := |keyOrder| downto 0
        invariant Valid() && Covers(page, base) && TookOff(start, Residuals(), released)
        invariant forall j :: 0 <= j < index ==> keyOrder[j] in states && keys[keyOrder[j]] == states[keyOrder[j]]
        invariant LogOf(line, page, released) == LogAfter(line.script, log, tried)
        invariant tried == Keys(Reversed(NotUp(keyOrder[index..], states)))
      {
        var code := keyOrder[index];
        TriedOneMore(keyOrder, states, index);
        if keys[code] != Up {
          LogOne(line.script, log, tried, Key(code));
          released := ReleaseKey(line, page, base, code, start, released);
          tried := tried + [Key(code)];
        }
      }
      assert keyOrder[0..] == keyOrder;
    }

    method ReleasePointer(line: Line, page: Session, ghost base: set<Input>, button: string, ghost start: iset<Input>,
                          released0: seq<Input>) returns (released: seq<Input>)
      requires Valid() && Covers(page, base) && button in pointerButtons && pointerButtons[button] != Up
      requires TookOff(start, Residuals(), released0)
      modifies this`pointerOrder, this`pointerButtons, this`releaseAttempts, line`sent, page
      ensures Valid() && Covers(page, base) && TookOff(start, Residuals(), released)
      ensures pointerOrder == old(pointerOrder)
      ensures LogOf(line, page, released) == LogStep(line.script, old(LogOf(line, page, released0)), Button(button))
      ensures pointerButtons == old(pointerButtons) || pointerButtons == old(pointerButtons)[button := Up]
    {
      released := released0;
      ghost var before := Residuals();
      assert Button(button) in before;
      var ok := Attempt(line, page, Button(button));
      if ok {
        PointerUp(button);
        TookOffOne(start, before, Residuals(), released, Button(button));
        released := released + [Button(button)];
      } else {
        assert Residuals() == before;
      }
    }

    /** From this place on the buttons are as they were. */
    ghost predicate SameFrom(states: map<string, KeyState>, k: nat)
      reads `pointerOrder, `pointerButtons
    {
      forall j :: k <= j < |pointerOrder| ==>
        && pointerOrder[j] in states && pointerOrder[j] in pointerButtons
        && pointerButtons[pointerOrder[j]] == states[pointerOrder[j]]
    }

    method ReleasePointers(line: Line, page: Session, ghost base: set<Input>) returns (released: seq<Input>)
      requires Valid() && Covers(page, base)
      modifies this`pointerOrder, this`pointerButtons, this`releaseAttempts, line`sent, page
      ensures Valid() && Covers(page, base) && TookOff(old(Residuals()), Residuals(), released)
      ensures LogOf(line, page, released)
           == LogAfter(line.script, old(LogOf(line, page, [])), ButtonInputs(old(NotUp(pointerOrder, pointerButtons))))
    {
      released := [];
      ghost var start, states, order := Residuals(), pointerButtons, pointerOrder;
      ghost var tried, log := [], LogOf(line, page, []);
      for k := 0 to |pointerOrder|
        invariant Valid() && Covers(page, base) && TookOff(start, Residuals(), released) && pointerOrder == order
        invariant SameFrom(states, k)
        invariant LogOf(line, page, released) == LogAfter(line.script, log, tried)
        invariant tried == ButtonInputs(NotUp(order[..k], states))
      {
        var button := pointerOrder[k];
        ButtonsOneMore(order, states, k);
        assert forall j :: k < j < |order| ==> order[j] != button;
        if pointerButtons[button] != Up {
          LogOne(line.script, log, tried, Button(button));
          released := ReleasePointer(line, page, base, button, start, released);
          tried := tried + [Button(button)];
        }
      }
      assert order[..|order|] == order;
    }

    method ReleaseDrag(line: Line, page: Session, ghost base: set<Input>) returns (released: seq<Input>)
      requires Valid() && Covers(page, base)
      modifies this`dragIntercept, this`releaseAttempts, line`sent, page
      ensures Valid() && Covers(page, base) && TookOff(old(Residuals()), Residuals(), released)
      ensures LogOf(line, page, released)
           == LogAfter(line.script, old(LogOf(line, page, [])),
                       if old(dragIntercept) != Off then [DragIntercept] else [])
    {
      released := [];
      if dragIntercept != Off {
        LogOne(line.script, LogOf(line, page, []), [], DragIntercept);
        assert [] + [DragIntercept] == [DragIntercept];
        var ok := Attempt(line, page, DragIntercept);
        if ok {
          DragInterceptOff();
          released := [DragIntercept];
        }
      }
    }

    method ReleaseKeysAndPointers(line: Line, page: Session, ghost base: set<Input>) returns (released: seq<Input>)
      requires Valid() && Covers(page, base)
      modifies this`keys, this`pointerOrder, this`pointerButtons, this`releaseAttempts, line`sent, page
      ensures Valid() && Covers(page, base) && TookOff(old(Residuals()), Residuals(), released)
      ensures LogOf(line, page, released)
           == LogAfter(line.script, old(LogOf(line, page, [])),
                       Keys(Reversed(old(NotUp(keyOrder, keys))))
                       + ButtonInputs(old(NotUp(pointerOrder, pointerButtons))))
    {
      ghost var r0, log := Residuals(), LogOf(line, page, []);
      ghost var ks, ps := Keys(Reversed(NotUp(keyOrder, keys))), ButtonInputs(NotUp(pointerOrder, pointerButtons));
      LogBoth(line.script, log, ks, ps);
      var keysReleased := ReleaseKeys(line, page, base);
      ghost var r1 := Residuals();
      LogFrom(line.script, LogOf(line, page, []), keysReleased, ps);
      var pointersReleased := ReleasePointers(line, page, base);
      TookOffMore(r0, r1, Residuals(), keysReleased, pointersReleased);
      released := keysReleased + pointersReleased;
    }

    /** Tries everything recorded as possibly down, each input exactly once: keys by last first press, then buttons,
        then drag interception. */
    method ReleaseAll(line: Line, page: Session, ghost base: set<Input>) returns (released: seq<Input>)
      requires Valid() && Covers(page, base)
      modifies this, line`sent, page
      ensures Valid() && Covers(page, base) && TookOff(old(Residuals()), Residuals(), released)
      ensures LogOf(line, page, released) == LogAfter(line.script, old(LogOf(line, page, [])), old(ReleaseOrder()))
    {
      ghost var r0, log := Residuals(), LogOf(line, page, []);
      ghost var first := Keys(Reversed(NotUp(keyOrder, keys))) + ButtonInputs(NotUp(pointerOrder, pointerButtons));
      ghost var drag := if dragIntercept != Off then [DragIntercept] else [];
      LogBoth(line.script, log, first, drag);
      var inputsReleased := ReleaseKeysAndPointers(line, page, base);
      ghost var r1 := Residuals();
      LogFrom(line.script, LogOf(line, page, []), inputsReleased, drag);
      var dragReleased := ReleaseDrag(line, page, base);
      TookOffMore(r0, r1, Residuals(), inputsReleased, dragReleased);
      released := inputsReleased + dragReleased;
    }

    /** Each input recorded as possibly down is released once, in order, and what was acknowledged is what comes off the
        record. What was released and what is left split what was down before; nothing is left exactly when every
        release was acknowledged, and then the page holds nothing it did not hold before the action. */
    method SafetyRelease(line: Line, page: Session, ghost base: set<Input>) returns (evidence: Evidence)
      requires Valid() && Covers(page, base)
      modifies this, line`sent, page
      ensures Valid() && Covers(page, base)
      ensures LogOf(line, page, evidence.releasedInputs)
           == LogAfter(line.script, old(LogOf(line, page, [])), old(ReleaseOrder()))
      ensures releaseAttempts == old(releaseAttempts) + old(ReleaseOrder())
      ensures line.sent == old(line.sent) + |old(ReleaseOrder())|
      ensures TookOff(old(Residuals()), Residuals(), evidence.releasedInputs)
      ensures Lists(evidence.residualInputs, Residuals()) && Lists(old(ReleaseOrder()), old(Residuals()))
      ensures evidence.residualInputs == [] <==> AllFine(line.script, old(line.sent), |old(ReleaseOrder())|)
      ensures evidence.residualInputs == [] ==> page.held <= base
      ensures evidence.state == StateOf(|old(Listing())| > 0, evidence.releasedInputs, evidence.residualInputs)
    {
      OrdersListResiduals();
      ghost var start, order, log := Residuals(), ReleaseOrder(), LogOf(line, page, []);
      var before := ResidualInputs();
      var released: seq<Input> := [];
      if before != [] {
        released := ReleaseAll(line, page, base);
      } else {
        assert order == [];
      }
      var residual := ResidualInputs();
      LogMeans(line.script, log, order);
      AllReleased(line.script, log, order, start, Residuals(), released, residual);
      if residual == [] { NothingHeld(page.held, base, Residuals(), residual); }
      evidence := Evidence(StateOf(before != [], released, residual), released, residual);
    }
  }

  /** Starting with something released already only puts that in front. */
  lemma {:induction false} LogFrom(script: nat -> Fault, l: Log, before: seq<Input>, order: seq<Input>)
    requires l.released == []
    ensures LogAfter(script, l.(released := before), order)
         == LogAfter(script, l, order).(released := before + LogAfter(script, l, order).released)
    decreases |order|
  {
    if order == [] {
      assert before + [] == before;
    } else {
      LogFrom(script, l, before, order[..|order| - 1]);
      var short := LogAfter(script, l, order[..|order| - 1]);
      assert before + (short.released + [order[|order| - 1]]) == (before + short.released) + [order[|order| - 1]];
    }
  }

  /** Nothing is left exactly when every release was acknowledged. */
  lemma {:induction false} AllReleased(script: nat -> Fault, l: Log, order: seq<Input>, before: iset<Input>,
                                       after: iset<Input>, released: seq<Input>, residual: seq<Input>)
    requires Lists(order, before) && TookOff(before, after, released) && Lists(residual, after)
    requires l.released == [] && released == LogAfter(script, l, order).released
    ensures residual == [] <==> AllFine(script, l.sent, |order|)
  {
    LogMeans(script, l, order);
    if residual == [] {
      forall i | i in order ensures i in released {
        assert i in before && i !in residual;
      }
      NoLonger(order, released);
    } else {
      var i := residual[0];
      assert i in residual;
      assert i in after && i in order && i !in released;
    }
  }

  /** A list without repetition that is contained in another is no longer than it. */
  lemma {:induction false} NoLonger(a: seq<Input>, b: seq<Input>)
    requires Distinct(a) && forall i :: i in a ==> i in b
    ensures |a| <= |b|
    decreases |a|
  {
    if a != [] {
      var x := a[|a| - 1];
      assert x in a && x in b;
      var k :| 0 <= k < |b| && b[k] == x;
      var rest := b[..k] + b[k + 1..];
      forall i | i in a[..|a| - 1] ensures i in rest {
        var j :| 0 <= j < |a| - 1 && a[j] == i;
        assert i != x && i in b;
        var m :| 0 <= m < |b| && b[m] == i;
        assert if m < k then rest[m] == i else rest[m - 1] == i;
      }
      NoLonger(a[..|a| - 1], rest);
    }
  }

  function StateOf(required: bool, released: seq<Input>, residual: seq<Input>): ReleaseState {
    if !required then NotRequired
    else if residual == [] then Released
    else if released != [] then PartiallyReleased
    else Unknown
  }

  lemma {:induction false} NothingHeld(held: set<Input>, base: set<Input>, recorded: iset<Input>, residual: seq<Input>)
    requires Within(held, base, recorded) && Lists(residual, recorded) && residual == []
    ensures held <= base
  {
    assert forall i :: i in recorded ==> i in residual;
  }

  lemma {:induction false} ButtonsOneMore(order: seq<string>, states: map<string, KeyState>, k: nat)
    requires k < |order|
    ensures ButtonInputs(NotUp(order[..k + 1], states)) ==
      ButtonInputs(NotUp(order[..k], states)) + (if IsUp(order[k], states) then [] else [Button(order[k])])
  {
    NotUpStep(order, states, k);
  }

  lemma {:induction false} TriedOneMore(order: seq<string>, states: map<string, KeyState>, index: nat)
    requires index < |order|
    ensures Keys(Reversed(NotUp(order[index..], states))) ==
      Keys(Reversed(NotUp(order[index + 1..], states)))
      + (if IsUp(order[index], states) then [] else [Key(order[index])])
  {
    NotUpFront(order[index..], states);
    assert order[index..][1..] == order[index + 1..];
  }
}
