/** What actions may leave down on a page: a press and its release take several awaits, an action may end before they
    do, and a session that may hold something is quarantined. */
module InputSafety {
  import opened Faults
  import opened InputGuard

  // ---- What a key is recorded and reported under.

  /** What a key event carries; either part may be empty. */
  datatype KeyDefinition = KeyDefinition(key: string, code: string)

  const NAMED_KEYS := {"Backspace", "Tab", "Enter", "Escape", "Space", "ArrowLeft", "ArrowUp", "ArrowRight",
                       "ArrowDown", "Delete", "Home", "End"}

  /** The definition of an action's key; `printed` gives the code of the printable keys that have one. */
  function DefineKey(printed: map<string, string>, key: string): KeyDefinition {
    if key in NAMED_KEYS then KeyDefinition(if key == "Space" then " " else key, key)
    else if |key| == 1 then KeyDefinition(key, if key in printed then printed[key] else "")
    else KeyDefinition(key, key)
  }

  /** The name the guard records a key under. */
  function RecordedAs(d: KeyDefinition): string {
    if d.code != "" then d.code else if d.key != "" then d.key else "unknown"
  }

  /** The name the action reports the key up under. */
  function ReportedAs(d: KeyDefinition): string { if d.code != "" then d.code else d.key }

  /** The two names agree for every key an action can name, and for no other. */
  lemma {:induction false} KeyNamesAgreeExactly(printed: map<string, string>, key: string)
    ensures RecordedAs(DefineKey(printed, key)) == ReportedAs(DefineKey(printed, key)) <==> key != ""
  {}

  // ---- One input pressed and released, from await to await.

  /** What a stroke waits for, and how that will turn out: its press, its release, or its safety release, which is sent
      as soon as either of the others failed. */
  datatype Stage = Pressing(ok: bool) | Releasing(ok: bool) | Safing(ok: bool) | Ended(done: bool)

  /** When the reply comes in at this stage, one more command is sent: the release or the safety release. */
  predicate Sends(stage: Stage) { stage.Pressing? || stage == Releasing(false) }

  /** The next stage, given what becomes of the command then sent. */
  function NextStage(stage: Stage, fault: Fault): Stage {
    match stage
    case Pressing(ok) => if ok then Releasing(fault.Fine?) else Safing(fault.Fine?)
    case Releasing(ok) => if ok then Ended(true) else Safing(fault.Fine?)
    case Safing(_) => Ended(false)
    case Ended(done) => Ended(done)
  }

  /** At this stage the page may hold the input. */
  predicate MayHold(stage: Stage) { stage.Pressing? || stage == Releasing(false) || stage == Safing(false) }

  function Pressed(fault: Fault, held: set<Input>,
                   i: Input): set<Input> { if fault.NoEffect? then held else held + {i} }

  function Lifted(fault: Fault, held: set<Input>, i: Input): set<Input> { if fault.NoEffect? then held else held - {i} }

  /** A press of the left button or of one key, and its release. */
  class Stroke {
    const page: Session
    const line: Line
    const guard: InputStateGuard
    const input: Input
    /** The name the release is reported under. */
    const reported: string
    var stage: Stage
    var evidence: Evidence

    ghost predicate Valid()
      reads this, guard
    {
      && guard.Valid() && !input.DragIntercept?
      && reported == (if input.Key? then input.code else if input.Button? then input.button else "")
      && (stage.Pressing? || stage.Releasing? ==> forall i :: guard.Residual(i) <==> i == input)
    }

    /** Records the input as possibly down and sends the press. */
    constructor (page: Session, line: Line, input: Input, reported: string)
      requires !input.DragIntercept?
      requires reported == (if input.Key? then input.code else if input.Button? then input.button else "")
      modifies page, line`sent
      ensures Valid() && fresh(guard) && this.page == page && this.line == line && this.input == input
      ensures line.sent == old(line.sent) + 1 && stage == Pressing(line.script(old(line.sent)).Fine?)
      ensures page.held == Pressed(line.script(old(line.sent)), old(page.held), input)
    {
      this.page, this.line, this.input, this.reported := page, line, input, reported;
      var g := new InputStateGuard();
      guard, stage, evidence := g, Pressing(false), Evidence(NotRequired, [], []);
      new;
      match input {
        case Button(b) => guard.PointerPossiblyDown(b);
        case Key(c) => guard.KeyPossiblyDown(c);
        case DragIntercept =>
      }
      var ok := line.Press(page, input);
      stage := Pressing(ok);
    }

    /** The reply awaited comes in, and the stroke goes on to its next await. */
    method Answer()
      requires Valid() && !stage.Ended?
      modifies this`stage, this`evidence, guard, line`sent, page
      ensures Valid() && stage == NextStage(old(stage), line.script(old(line.sent)))
      ensures line.sent == old(line.sent) + (if Sends(old(stage)) then 1 else 0)
      ensures page.held == if Sends(old(stage)) then Lifted(line.script(old(line.sent)), old(page.held), input)
                           else old(page.held)
      ensures stage.Ended? ==> evidence == old(evidence)
    {
      match stage {
        case Pressing(true) =>
          ReportDown();
          var ok := line.Release(page, input);
          stage := Releasing(ok);
        case Releasing(true) =>
          ReportUp();
          stage := Ended(true);
        case Safing(_) => stage := Ended(false);
        case Pressing(false) => SendSafety();
        case Releasing(false) => SendSafety();
        case Ended(_) =>
      }
    }

    method ReportDown()
      requires Valid() && stage.Pressing?
      modifies guard
      ensures Valid()
    {
      match input {
        case Button(_) => guard.PointerDown(reported);
        case Key(_) => guard.KeyDown(reported);
        case DragIntercept =>
      }
    }

    method ReportUp()
      requires Valid() && stage.Releasing?
      modifies guard
      ensures guard.Valid() && forall i :: !guard.Residual(i)
    {
      match input {
        case Button(_) => guard.PointerUp(reported);
        case Key(_) => guard.KeyUp(reported);
        case DragIntercept =>
      }
    }

    lemma {:induction false} OneToRelease()
      requires Valid() && (stage.Pressing? || stage.Releasing?)
      ensures guard.ReleaseOrder() == [input]
    {
      guard.OrdersListResiduals();
      OnlyOne(guard.ReleaseOrder(), input);
    }

    /** The safety release of the one input that is recorded: one command. */
    method SendSafety()
      requires Valid() && (stage.Pressing? || stage.Releasing?)
      modifies this`stage, this`evidence, guard, line`sent, page
      ensures Valid() && stage == Safing(line.script(old(line.sent)).Fine?) && line.sent == old(line.sent) + 1
      ensures page.held == Lifted(line.script(old(line.sent)), old(page.held), input)
    {
      OneToRelease();
      OneRelease(line.script, guard.LogOf(line, page, []), input);
      evidence := guard.SafetyRelease(line, page, page.held);
      stage := Safing(evidence.residualInputs == []);
    }
  }

  lemma {:induction false} OneRelease(script: nat -> Fault, l: Log, i: Input)
    ensures LogAfter(script, l, [i]) == LogStep(script, l, i)
    ensures AllFine(script, l.sent, 1) <==> script(l.sent).Fine?
  {
    assert [] + [i] == [i];
    LogOne(script, l, [], i);
    assert AllFine(script, l.sent, 0);
  }

  lemma {:induction false} OnlyOne(order: seq<Input>, i: Input)
    requires Distinct(order) && forall j :: j in order <==> j == i
    ensures order == [i]
  {
    assert i in order;
    NoLonger(order, [i]);
  }

  /** An input the page still holds after a reply is still pending, unless its safety release failed. */
  lemma {:induction false} StaysPending(stage: Stage, fault: Fault, held: set<Input>, i: Input)
    requires MayHold(stage) && stage != Safing(false) && i in Lifted(fault, held, i)
    ensures MayHold(NextStage(stage, fault)) && !NextStage(stage, fault).Ended?
  {
  }

  // ---- What a stroke comes to when it is awaited to its end.

  /** Whether it ends done, and whether it ends with the input still recorded as possibly down. */
  function Result(stage: Stage, script: nat -> Fault, at: nat): (bool, bool) {
    match stage
    case Pressing(ok) =>
      if ok && script(at).Fine? then (true, false)
      else if ok then (false, !script(at + 1).Fine?)
      else (false, !script(at).Fine?)
    case Releasing(ok) => if ok then (true, false) else (false, !script(at).Fine?)
    case Safing(ok) => (false, !ok)
    case Ended(done) => (done, false)
  }

  /** What the page holds in the end. */
  function PageAfter(stage: Stage, script: nat -> Fault, at: nat, held: set<Input>, i: Input): set<Input> {
    if !Sends(stage) then held
    else if stage == Pressing(true) && !script(at).Fine? then
      Lifted(script(at + 1), Lifted(script(at), held, i), i)
    else Lifted(script(at), held, i)
  }

  /** Where it stands after this many replies. */
  function StageAfter(stage: Stage, script: nat -> Fault, at: nat, replies: nat): Stage
    decreases replies
  {
    if replies == 0 || stage.Ended? then stage
    else StageAfter(NextStage(stage, script(at)), script, if Sends(stage) then at + 1 else at, replies - 1)
  }

  /** The whole stroke, its press being the command at this place of the script. */
  function StrokeResult(script: nat -> Fault, at: nat): (bool, bool) {
    Result(Pressing(script(at).Fine?), script, at + 1)
  }

  function StrokePage(script: nat -> Fault, at: nat, held: set<Input>, i: Input): set<Input> {
    PageAfter(Pressing(script(at).Fine?), script, at + 1, Pressed(script(at), held, i), i)
  }

  /** A stroke that ends with nothing recorded leaves the input up, whatever happened to its commands. */
  lemma {:induction false} CleanUnlessRecorded(script: nat -> Fault, at: nat, held: set<Input>, i: Input)
    ensures !StrokeResult(script, at).1 ==> StrokePage(script, at, held, i) == held - {i}
    ensures StrokePage(script, at, held, i) <= held + {i}
  {
  }

  /** A stroke takes two replies to end, or three when its press is acknowledged and its release is not. */
  lemma {:induction false} RepliesNeeded(script: nat -> Fault, at: nat, replies: nat)
    ensures StageAfter(Pressing(script(at).Fine?), script, at + 1, replies).Ended?
       <==> replies >= if script(at).Fine? && !script(at + 1).Fine? then 3 else 2
  {
    var first := Pressing(script(at).Fine?);
    if replies > 0 {
      if script(at).Fine? {
        RepliesToRelease(script(at + 1).Fine?, script, at + 2, replies - 1);
      } else {
        RepliesToSafety(script(at + 1).Fine?, script, at + 2, replies - 1);
      }
      assert StageAfter(first, script, at + 1, replies)
          == StageAfter(NextStage(first, script(at + 1)), script, at + 2, replies - 1);
    }
  }

  lemma {:induction false} RepliesToRelease(ok: bool, script: nat -> Fault, at: nat, replies: nat)
    ensures StageAfter(Releasing(ok), script, at, replies).Ended? <==> replies >= if ok then 1 else 2
  {
    if replies > 0 && !ok { RepliesToSafety(script(at).Fine?, script, at + 1, replies - 1); }
  }

  lemma {:induction false} RepliesToSafety(ok: bool, script: nat -> Fault, at: nat, replies: nat)
    ensures StageAfter(Safing(ok), script, at, replies).Ended? <==> replies >= 1
  {
    if replies > 0 { assert StageAfter(Ended(false), script, at, replies - 1).Ended?; }
  }

  // ---- Actions on sessions.

  /** A raced click is one whose dialog is handled, or whose download is captured, while it is underway. */
  datatype Action =
    | Click
    | RacedClick
    | Drag
    | Press(key: string, prepared: bool)
    | Other(externalEffect: bool)

  predicate ExternalEffect(a: Action) { a.Other? ==> a.externalEffect }

  datatype Ending = Refused | Done | Failed

  /** What becomes of an action: of its commands in order; of the audit of a failed target release, and whether that
      failure comes before the answer to the safety release; of the other side of a raced click, and how many of the
      click's replies come before that. */
  datatype Fate = Fate(script: nat -> Fault, auditThrows: bool, overtakes: bool, otherFails: bool, replies: nat)

  /** The other side of a raced click fails while the click still waits for something. */
  predicate ClickLeftUnderway(script: nat -> Fault, replies: nat, otherFails: bool) {
    otherFails && replies < if script(0).Fine? && !script(1).Fine? then 3 else 2
  }

  /** The place of a key press in its action: behind the recheck, and the focus of a prepared target. */
  function PressAt(prepared: bool): nat { if prepared then 2 else 1 }

  predicate PressSent(prepared: bool, script: nat -> Fault) { script(0).Fine? && (prepared ==> script(1).Fine?) }

  function SafetyAt(prepared: bool, script: nat -> Fault): nat {
    PressAt(prepared) + if script(PressAt(prepared)).Fine? then 2 else 1
  }

  /** The target's release is sent behind the release of the key, or behind its safety release; it throws. */
  predicate StrikeOvertaken(script: nat -> Fault, at: nat, auditThrows: bool) {
    !StrokeResult(script, at).0 && !script(at + if script(at).Fine? then 3 else 2).Fine? && auditThrows
  }

  predicate StrikeDone(script: nat -> Fault, at: nat, prepared: bool, auditThrows: bool) {
    StrokeResult(script, at).0 && (prepared && !script(at + 2).Fine? ==> !auditThrows)
  }

  predicate PressDone(prepared: bool, script: nat -> Fault, auditThrows: bool) {
    PressSent(prepared, script) && StrikeDone(script, PressAt(prepared), prepared, auditThrows)
  }

  /** A press ends before its safety release is answered: its target was prepared, the key recorded, and the release of
      the target and the audit of that failure both failed before then. */
  predicate PressLeftUnderway(prepared: bool, script: nat -> Fault, auditThrows: bool, overtakes: bool) {
    && prepared && PressSent(prepared, script) && !StrokeResult(script, 2).0
    && !script(SafetyAt(prepared, script) + 1).Fine? && auditThrows && overtakes
  }

  // ---- Drags.

  /** Recheck, interception on, move, press, six moves, the intercepted data, three drag events, release. */
  const DRAG_STEPS := 15

  /** How many of the first commands are acknowledged before one is not. */
  function Leading(script: nat -> Fault, limit: nat): (n: nat)
    ensures n <= limit
  {
    if limit == 0 then 0
    else
      var n := Leading(script, limit - 1);
      if n == limit - 1 && script(n).Fine? then limit else n
  }

  /** And how many are sent: the one that fails is the last. */
  function SentBy(n: nat, limit: nat): nat { if n < limit then n + 1 else n }

  lemma {:induction false} LeadingGrows(script: nat -> Fault, m: nat, limit: nat)
    requires m <= limit
    ensures Leading(script, m) < m ==> Leading(script, limit) == Leading(script, m)
    ensures Leading(script, m) == m ==> Leading(script, limit) >= m
    decreases limit
  {
    if m < limit { LeadingGrows(script, m, limit - 1); }
  }

  /** What is recorded after so many acknowledged commands of a drag. */
  predicate DragResidual(n: nat, i: Input) {
    (i == DragIntercept && n >= 1) || (i == Button("left") && 3 <= n < DRAG_STEPS)
  }

  /** What the page holds then, its next command having failed or taken effect. */
  function DragHeld(script: nat -> Fault, n: nat, held: set<Input>): set<Input> {
    var on := if n >= 1 then Pressed(script(1), held, DragIntercept) else held;
    var down := if n >= 3 then Pressed(script(3), on, Button("left")) else on;
    if n >= 14 then Lifted(script(14), down, Button("left")) else down
  }

  /** Where interception is turned off, if it may be on, and where the destination is released. */
  function OffAt(script: nat -> Fault): nat { SentBy(Leading(script, DRAG_STEPS), DRAG_STEPS) }

  function DestinationAt(script: nat -> Fault): nat {
    OffAt(script) + if Leading(script, DRAG_STEPS) >= 1 then 1 else 0
  }

  predicate InterceptLeft(script: nat -> Fault) { Leading(script, DRAG_STEPS) >= 1 && !script(OffAt(script)).Fine? }

  predicate ButtonLeft(script: nat -> Fault) { 3 <= Leading(script, DRAG_STEPS) < DRAG_STEPS }

  /** What is still recorded when the destination is released. */
  predicate DragLeft(script: nat -> Fault, i: Input) {
    (i == DragIntercept && InterceptLeft(script)) || (i == Button("left") && ButtonLeft(script))
  }

  function LeftCount(script: nat -> Fault): nat {
    (if InterceptLeft(script) then 1 else 0) + (if ButtonLeft(script) then 1 else 0)
  }

  /** And what the page then holds. */
  function DragPage(script: nat -> Fault, held: set<Input>): set<Input> {
    var n := Leading(script, DRAG_STEPS);
    var page := DragHeld(script, n, held);
    if n >= 1 then Lifted(script(OffAt(script)), page, DragIntercept) else page
  }

  predicate DragFails(script: nat -> Fault) { Leading(script, DRAG_STEPS) < DRAG_STEPS || InterceptLeft(script) }

  /** The release of the destination and the audit of its failure both fail. */
  predicate DragThrows(script: nat -> Fault, auditThrows: bool) { !script(DestinationAt(script)).Fine? && auditThrows }

  predicate DragDone(script: nat -> Fault, auditThrows: bool) { !DragFails(script) && !DragThrows(script, auditThrows) }

  /** A drag leaves something recorded without quarantine: the release of its destination throws while the button or
      interception is recorded as possibly down. */
  predicate DragEscapes(script: nat -> Fault, auditThrows: bool) {
    DragThrows(script, auditThrows) && (ButtonLeft(script) || InterceptLeft(script))
  }

  predicate DragQuarantines(script: nat -> Fault, auditThrows: bool) {
    !DragThrows(script, auditThrows) && !AllFine(script, DestinationAt(script) + 1, LeftCount(script))
  }

  lemma {:induction false} LeftOrder(script: nat -> Fault, order: seq<Input>)
    requires Distinct(order) && forall i :: i in order <==> DragLeft(script, i)
    ensures |order| == LeftCount(script)
  {
    var all := (if InterceptLeft(script) then [DragIntercept] else [])
             + (if ButtonLeft(script) then [Button("left")] else []);
    assert forall i :: i in all <==> DragLeft(script, i);
    NoLonger(order, all);
    NoLonger(all, order);
  }

  /** The actions that end while a stroke of theirs goes on. */
  predicate LeavesUnderway(a: Action, fate: Fate) {
    || (a.RacedClick? && ClickLeftUnderway(fate.script, fate.replies, fate.otherFails))
    || (a.Press? && PressLeftUnderway(a.prepared, fate.script, fate.auditThrows, fate.overtakes))
  }

  /** The actions that leave something recorded for good, without quarantine. */
  predicate Escapes(a: Action, fate: Fate) { a.Drag? && DragEscapes(fate.script, fate.auditThrows) }

  class BrowserAutomation {
    const printed: map<string, string>
    var quarantined: map<Session, Evidence>
    ghost var attached: set<Session>
    /** Strokes begun by an action and not ended; they go on when the action does not wait for them. */
    ghost var underway: set<Stroke>
    /** Sessions a drag left with something recorded down and no quarantine. */
    ghost var escaped: set<Session>

    ghost function Guards(): set<InputStateGuard>
      reads `underway
    {
      set u | u in underway :: u.guard
    }

    ghost predicate StrokesHold()
      reads `underway, underway, Guards()
    {
      && (forall u :: u in underway ==> u.Valid() && !u.stage.Ended?)
      && forall u, v :: u in underway && v in underway && u != v ==> u.guard != v.guard && u.line != v.line
    }

    ghost predicate Pending(s: Session, i: Input)
      reads `underway, underway
    {
      exists u :: u in underway && u.page == s && u.input == i && MayHold(u.stage)
    }

    /** A page holds an input only in quarantine, after an escape, or while a stroke that pressed it is underway. */
    ghost predicate Accounted()
      reads `attached, `quarantined, `escaped, `underway, attached, underway
    {
      forall s, i :: s in attached && i in s.held ==> s in quarantined || s in escaped || Pending(s, i)
    }

    ghost predicate Valid()
      reads this, attached, underway, Guards()
    {
      StrokesHold() && Accounted()
    }

    constructor (printed: map<string, string>)
      ensures Valid() && attached == {} && escaped == {} && underway == {} && quarantined == map[]
    {
      this.printed := printed;
      quarantined, attached, underway, escaped := map[], {}, {}, {};
    }

    method Attach(s: Session)
      requires Valid() && s.held == {}
      modifies this`attached
      ensures Valid() && attached == old(attached) + {s}
    {
      attached := attached + {s};
    }

    method DropSession(s: Session)
      requires Valid()
      modifies this`attached, this`quarantined
      ensures Valid() && attached == old(attached) - {s} && quarantined == old(quarantined) - {s}
    {
      attached := attached - {s};
      quarantined := quarantined - {s};
    }

    /** Begins a stroke: from here on it is underway. */
    method Begin(s: Session, line: Line, input: Input, reported: string) returns (u: Stroke)
      requires Valid() && !input.DragIntercept? && forall v :: v in underway ==> v.line != line
      requires reported == (if input.Key? then input.code else if input.Button? then input.button else "")
      modifies this`underway, line`sent, s
      ensures Valid() && fresh(u) && fresh(u.guard) && underway == old(underway) + {u}
      ensures u.page == s && u.line == line && u.input == input
      ensures line.sent == old(line.sent) + 1 && u.stage == Pressing(line.script(old(line.sent)).Fine?)
      ensures s.held == Pressed(line.script(old(line.sent)), old(s.held), input)
    {
      u := new Stroke(s, line, input, reported);
      underway := underway + {u};
      forall t, i | t in attached && i in t.held ensures t in quarantined || t in escaped || Pending(t, i) {
        if t == s && i == input { assert MayHold(u.stage); }
      }
    }

    /** One stroke goes on by one reply; the others stay where they are. */
    method AnswerOne(u: Stroke)
      requires StrokesHold() && u in underway
      modifies this`quarantined, this`underway, u, u.guard, u.line`sent, u.page
      ensures u.stage == NextStage(old(u.stage), u.line.script(old(u.line.sent)))
      ensures u.line.sent == old(u.line.sent) + (if Sends(old(u.stage)) then 1 else 0)
      ensures u.page.held == if Sends(old(u.stage))
                             then Lifted(u.line.script(old(u.line.sent)), old(u.page.held), u.input)
                             else old(u.page.held)
      ensures quarantined == if old(u.stage) == Safing(false) then old(quarantined)[u.page := u.evidence]
                             else old(quarantined)
      ensures underway == if u.stage.Ended? then old(underway) - {u} else old(underway)
      ensures StrokesHold() && forall v :: v in underway && v != u ==> v.stage == old(v.stage)
    {
      var waited := u.stage;
      u.Answer();
      if waited == Safing(false) { quarantined := quarantined[u.page := u.evidence]; }
      if u.stage.Ended? { underway := underway - {u}; }
    }

    /** A reply to a stroke underway comes in, whether or not an action still waits for it. A safety release that failed
        quarantines the session; an ended stroke is underway no more. */
    method Advance(u: Stroke)
      requires Valid() && u in underway
      modifies this`quarantined, this`underway, u, u.guard, u.line`sent, u.page
      ensures Valid()
      ensures u.stage == NextStage(old(u.stage), u.line.script(old(u.line.sent)))
      ensures u.line.sent == old(u.line.sent) + (if Sends(old(u.stage)) then 1 else 0)
      ensures u.page.held == if Sends(old(u.stage))
                             then Lifted(u.line.script(old(u.line.sent)), old(u.page.held), u.input)
                             else old(u.page.held)
      ensures underway == if u.stage.Ended? then old(underway) - {u} else old(underway)
      ensures quarantined == if old(u.stage) == Safing(false) then old(quarantined)[u.page := u.evidence]
                             else old(quarantined)
    {
      AnswerOne(u);
      forall t, i | t in attached && i in t.held && t !in quarantined && t !in escaped ensures Pending(t, i) {
        assert old(Pending(t, i));
        var v :| v in old(underway) && v.page == t && v.input == i && old(MayHold(v.stage));
        if v != u {
          assert v in underway && v.stage == old(v.stage);
        } else {
          StaysPending(old(u.stage), u.line.script(old(u.line.sent)), old(u.page.held), i);
          assert u in underway;
        }
      }
    }

    /** The stroke awaited to its end: at most three replies. */
    method Finish(u: Stroke)
      requires Valid() && u in underway
      modifies this`quarantined, this`underway, u, u.guard, u.line`sent, u.page
      ensures Valid() && underway == old(underway) - {u}
      ensures u.stage == Ended(Result(old(u.stage), u.line.script, old(u.line.sent)).0)
      ensures quarantined == if Result(old(u.stage), u.line.script, old(u.line.sent)).1
                             then old(quarantined)[u.page := u.evidence] else old(quarantined)
      ensures u.page.held == PageAfter(old(u.stage), u.line.script, old(u.line.sent), old(u.page.held), u.input)
      ensures u.line.sent >= old(u.line.sent)
    {
      if u.stage.Pressing? { Advance(u); }
      if u.stage == Releasing(false) { Advance(u); }
      Advance(u);
    }

    // ---- Clicks.

    method ClickTarget(s: Session, script: nat -> Fault) returns (e: Ending)
      requires Valid()
      modifies this`quarantined, this`underway, s
      ensures Valid() && underway == old(underway)
      ensures e == if StrokeResult(script, 0).0 then Done else Failed
      ensures Recorded(s, old(quarantined), StrokeResult(script, 0).1)
      ensures s.held == StrokePage(script, 0, old(s.held), Button("left"))
    {
      var line := new Line(script);
      var u := Begin(s, line, Button("left"), "left");
      Finish(u);
      e := if u.stage.done then Done else Failed;
    }

    /** The session is quarantined or not; no other session's quarantine changed. */
    ghost predicate Recorded(s: Session, before: map<Session, Evidence>, now: bool)
      reads `quarantined
    {
      if now then s in quarantined && quarantined == before[s := quarantined[s]] else quarantined == before
    }

    /** A click that an action runs beside something else it waits for: the dialog it opens and its handling, or the
        download it starts. When the other side fails first, the action ends there, and the click goes on by itself.
        `replies` says how many of the click's replies have come in by then. */
    method RacedClick(s: Session, script: nat -> Fault, replies: nat, otherFails: bool)
      returns (e: Ending, ghost left: set<Stroke>)
      requires Valid()
      modifies this`quarantined, this`underway, s
      ensures Valid() && underway == old(underway) + left
      ensures e == if !otherFails && StrokeResult(script, 0).0 then Done else Failed
      ensures left != {} <==> ClickLeftUnderway(script, replies, otherFails)
      ensures forall u :: u in left ==> fresh(u) && u.page == s && u.input == Button("left")
      ensures left == {} ==> Recorded(s, old(quarantined), StrokeResult(script, 0).1)
      ensures left == {} ==> s.held == StrokePage(script, 0, old(s.held), Button("left"))
      ensures left != {} ==> quarantined == old(quarantined)
    {
      left := {};
      var line := new Line(script);
      var u := Begin(s, line, Button("left"), "left");
      RepliesNeeded(script, 0, replies);
      if otherFails {
        Await(u, replies);
        return Failed, if u.stage.Ended? then {} else {u};
      }
      Finish(u);
      e := if u.stage.done then Done else Failed;
    }

    /** This many replies come in, or as many as the stroke needs. */
    method Await(u: Stroke, replies: nat)
      requires Valid() && u in underway
      modifies this`quarantined, this`underway, u, u.guard, u.line`sent, u.page
      ensures Valid() && underway == if u.stage.Ended? then old(underway) - {u} else old(underway)
      ensures u.stage == StageAfter(old(u.stage), u.line.script, old(u.line.sent), replies)
      ensures !u.stage.Ended? ==> quarantined == old(quarantined)
      ensures u.stage.Ended? ==>
        && quarantined == (if Result(old(u.stage), u.line.script, old(u.line.sent)).1
                           then old(quarantined)[u.page := u.evidence] else old(quarantined))
        && u.page.held == PageAfter(old(u.stage), u.line.script, old(u.line.sent), old(u.page.held), u.input)
    {
      var k := 0;
      while k < replies && !u.stage.Ended?
        invariant k <= replies && Valid()
        invariant underway == if u.stage.Ended? then old(underway) - {u} else old(underway)
        invariant StageAfter(u.stage, u.line.script, u.line.sent, replies - k)
               == StageAfter(old(u.stage), u.line.script, old(u.line.sent), replies)
        invariant Result(u.stage, u.line.script, u.line.sent).0
               == Result(old(u.stage), u.line.script, old(u.line.sent)).0
        invariant !u.stage.Ended? ==>
          && quarantined == old(quarantined)
          && Result(u.stage, u.line.script, u.line.sent).1 == Result(old(u.stage), u.line.script, old(u.line.sent)).1
        invariant PageAfter(u.stage, u.line.script, u.line.sent, u.page.held, u.input)
               == PageAfter(old(u.stage), u.line.script, old(u.line.sent), old(u.page.held), u.input)
        invariant u.stage.Ended? ==>
          quarantined == if Result(old(u.stage), u.line.script, old(u.line.sent)).1
                         then old(quarantined)[u.page := u.evidence] else old(quarantined)
        decreases replies - k
      {
        Advance(u);
        k := k + 1;
      }
    }

    // ---- Key presses.

    /** Releases the handle of a prepared target. It throws only when the release and the audit of its failure fail. */
    method ReleaseTarget(line: Line, auditThrows: bool) returns (throws: bool)
      modifies line`sent
      ensures line.sent == old(line.sent) + 1
      ensures throws == (!line.script(old(line.sent)).Fine? && auditThrows)
    {
      var ok := line.Send();
      throws := !ok && auditThrows;
    }

    /** Presses one key on a target (`prepared`) or where the focus is. Every failure sends the safety release, and the
        target is released behind it; the action does not wait for the safety release when the target's release throws
        before that is answered (`overtakes`). */
    method PressKey(s: Session, key: string, prepared: bool, script: nat -> Fault, auditThrows: bool, overtakes: bool)
      returns (e: Ending, ghost left: set<Stroke>)
      requires Valid() && key != ""
      modifies this`quarantined, this`underway, s
      ensures Valid() && underway == old(underway) + left
      ensures e == if PressDone(prepared, script, auditThrows) then Done else Failed
      ensures left != {} <==> PressLeftUnderway(prepared, script, auditThrows, overtakes)
      ensures forall u :: u in left ==>
        && fresh(u) && u.page == s && u.input == KeyInput(key)
        && u.stage == Safing(script(SafetyAt(prepared, script)).Fine?)
      ensures left == {} ==>
        Recorded(s, old(quarantined), PressSent(prepared, script) && StrokeResult(script, PressAt(prepared)).1)
      ensures left != {} ==> quarantined == old(quarantined)
      ensures s.held == if PressSent(prepared, script)
                        then StrokePage(script, PressAt(prepared), old(s.held), KeyInput(key)) else old(s.held)
    {
      left := {};
      var line := new Line(script);
      var definition := DefineKey(printed, key);
      KeyNamesAgreeExactly(printed, key);
      var ready := Ready(line, prepared);
      if !ready {
        // nothing is recorded yet, so the safety release sends nothing
        if prepared { var thrown := ReleaseTarget(line, auditThrows); }
        return Failed, left;
      }
      var input := Key(RecordedAs(definition));
      e, left := StrikeKey(s, line, input, ReportedAs(definition), prepared, auditThrows, overtakes);
    }

    /** Rechecks the target and, if there is one of its own, focuses it. */
    method Ready(line: Line, prepared: bool) returns (ready: bool)
      requires line.sent == 0
      modifies line`sent
      ensures ready == PressSent(prepared, line.script) && (ready ==> line.sent == PressAt(prepared))
    {
      ready := line.Send();
      if ready && prepared { ready := line.Send(); }
    }

    /** The input a key action records. */
    function KeyInput(key: string): Input { Key(RecordedAs(DefineKey(printed, key))) }

    /** Press and release, up to the end or to the await of the safety release. */
    method Strike(s: Session, line: Line, input: Input, reported: string) returns (u: Stroke)
      requires Valid() && input.Key? && reported == input.code && forall v :: v in underway ==> v.line != line
      modifies this`quarantined, this`underway, s, line`sent
      ensures Valid() && fresh(u) && fresh(u.guard) && u.page == s && u.line == line && u.input == input
      ensures quarantined == old(quarantined)
      ensures u.stage == if StrokeResult(line.script, old(line.sent)).0 then Ended(true)
                         else Safing(!StrokeResult(line.script, old(line.sent)).1)
      ensures underway == if u.stage.Ended? then old(underway) else old(underway) + {u}
      ensures line.sent == old(line.sent) + if !u.stage.Ended? && line.script(old(line.sent)).Fine? then 3 else 2
      ensures s.held == StrokePage(line.script, old(line.sent), old(s.held), input)
    {
      u := Begin(s, line, input, reported);
      Advance(u);
      if u.stage.Releasing? { Advance(u); }
    }

    /** The press once the target has been rechecked and focused. */
    method StrikeKey(s: Session, line: Line, input: Input, reported: string, prepared: bool, auditThrows: bool,
                     overtakes: bool) returns (e: Ending, ghost left: set<Stroke>)
      requires Valid() && input.Key? && reported == input.code && forall v :: v in underway ==> v.line != line
      modifies this`quarantined, this`underway, s, line`sent
      ensures Valid() && underway == old(underway) + left
      ensures e == if StrikeDone(line.script, old(line.sent), prepared, auditThrows) then Done else Failed
      ensures left != {} <==> prepared && overtakes && StrikeOvertaken(line.script, old(line.sent), auditThrows)
      ensures forall u :: u in left ==>
        fresh(u) && u.page == s && u.input == input && u.stage == Safing(!StrokeResult(line.script, old(line.sent)).1)
      ensures left == {} ==> Recorded(s, old(quarantined), StrokeResult(line.script, old(line.sent)).1)
      ensures left != {} ==> quarantined == old(quarantined)
      ensures s.held == StrokePage(line.script, old(line.sent), old(s.held), input)
    {
      left := {};
      var u := Strike(s, line, input, reported);
      var throws := false;
      if prepared { throws := ReleaseTarget(line, auditThrows); }
      if u.stage.Ended? { return if throws then Failed else Done, left; }
      if throws && overtakes { return Failed, {u}; }
      Finish(u);
      return Failed, left;
    }

    // ---- Drags.

    /** Releases what a failed drag left down, and quarantines the session when something stays. */
    method RaiseInputFailure(s: Session, line: Line, guard: InputStateGuard, ghost base: set<Input>)
      requires guard.Valid() && guard.Covers(s, base)
      modifies this`quarantined, guard, line`sent, s
      ensures AllFine(line.script, old(line.sent), |old(guard.ReleaseOrder())|) ==>
        s.held <= base && quarantined == old(quarantined)
      ensures !AllFine(line.script, old(line.sent), |old(guard.ReleaseOrder())|) ==>
        s in quarantined && quarantined == old(quarantined)[s := quarantined[s]]
    {
      var evidence := guard.SafetyRelease(line, s, base);
      if evidence.residualInputs != [] {
        quarantined := quarantined[s := evidence];
      }
    }

    /** Interception on, the pointer in place, and the press. */
    method DragStart(s: Session, line: Line, guard: InputStateGuard, ghost base: set<Input>) returns (ok: bool)
      requires guard.Valid() && guard.Covers(s, base) && (forall i :: !guard.Residual(i)) && line.sent == 0
      modifies guard, s, line`sent
      ensures guard.Valid() && guard.Covers(s, base)
      ensures ok <==> Leading(line.script, 4) == 4
      ensures line.sent == SentBy(Leading(line.script, 4), 4)
      ensures forall i :: guard.Residual(i) <==> DragResidual(Leading(line.script, 4), i)
      ensures s.held == DragHeld(line.script, Leading(line.script, 4), old(s.held))
    {
      ok := line.Send();
      if !ok { return; }
      guard.DragInterceptPossiblyOn();
      ok := line.Press(s, DragIntercept);
      if !ok { return; }
      guard.DragInterceptOn();
      ok := line.Send();
      if !ok { return; }
      guard.PointerPossiblyDown("left");
      ok := line.Press(s, Button("left"));
      if !ok { return; }
      guard.PointerDown("left");
    }

    /** The mouse part of a drag: press, six moves, the intercepted drag data, three drag events, release. */
    method DragPointer(s: Session, line: Line, guard: InputStateGuard, ghost base: set<Input>) returns (ok: bool)
      requires guard.Valid() && guard.Covers(s, base) && (forall i :: !guard.Residual(i)) && line.sent == 0
      modifies guard, s, line`sent
      ensures guard.Valid() && guard.Covers(s, base)
      ensures ok <==> Leading(line.script, DRAG_STEPS) == DRAG_STEPS
      ensures line.sent == SentBy(Leading(line.script, DRAG_STEPS), DRAG_STEPS)
      ensures forall i :: guard.Residual(i) <==> DragResidual(Leading(line.script, DRAG_STEPS), i)
      ensures s.held == DragHeld(line.script, Leading(line.script, DRAG_STEPS), old(s.held))
    {
      ghost var script, before := line.script, s.held;
      ok := DragStart(s, line, guard, base);
      LeadingGrows(script, 4, DRAG_STEPS);
      if !ok { return; }
      for step := 4 to 14
        invariant ok && line.sent == step && Leading(script, step) == step
        invariant guard.Valid() && guard.Covers(s, base)
        invariant forall i :: guard.Residual(i) <==> DragResidual(4, i)
        invariant s.held == DragHeld(script, 4, before)
      {
        ok := line.Send();
        LeadingGrows(script, step + 1, DRAG_STEPS);
        if !ok { return; }
      }
      ok := line.Release(s, Button("left"));
      if !ok { return; }
      guard.PointerUp("left");
    }

    /** Interception is turned off if it may be on. */
    method DragOff(s: Session, line: Line, guard: InputStateGuard, ghost base: set<Input>) returns (off: bool)
      requires guard.Valid() && guard.Covers(s, base) && line.sent == OffAt(line.script)
      requires forall i :: guard.Residual(i) <==> DragResidual(Leading(line.script, DRAG_STEPS), i)
      modifies guard`dragIntercept, s, line`sent
      ensures guard.Valid() && guard.Covers(s, base)
      ensures off == !InterceptLeft(line.script) && line.sent == DestinationAt(line.script)
      ensures forall i :: guard.Residual(i) <==> DragLeft(line.script, i)
      ensures s.held == if Leading(line.script, DRAG_STEPS) >= 1
                        then Lifted(line.script(OffAt(line.script)), old(s.held), DragIntercept) else old(s.held)
    {
      assert guard.dragIntercept != InputGuard.Off <==> guard.Residual(DragIntercept);
      off := true;
      if guard.dragIntercept != InputGuard.Off {
        off := line.Release(s, DragIntercept);
        if off { guard.DragInterceptOff(); }
      }
    }

    /** Everything a drag sends before its safety release. */
    method DragRun(s: Session, line: Line, guard: InputStateGuard, ghost base: set<Input>, auditThrows: bool)
      returns (failed: bool, throws: bool)
      requires guard.Valid() && guard.Covers(s, base) && (forall i :: !guard.Residual(i)) && line.sent == 0
      modifies guard, s, line`sent
      ensures guard.Valid() && guard.Covers(s, base) && line.sent == DestinationAt(line.script) + 1
      ensures failed == DragFails(line.script) && throws == DragThrows(line.script, auditThrows)
      ensures forall i :: guard.Residual(i) <==> DragLeft(line.script, i)
      ensures s.held == DragPage(line.script, old(s.held))
    {
      var ok := DragPointer(s, line, guard, base);
      var off := DragOff(s, line, guard, base);
      failed := !ok || !off;
      throws := ReleaseTarget(line, auditThrows);
    }

    /** What follows them: nothing if the release of the destination threw, the safety release if the drag failed. */
    method DragEnd(s: Session, line: Line, guard: InputStateGuard, ghost base: set<Input>, failed: bool, throws: bool,
                   ghost auditThrows: bool) returns (e: Ending)
      requires guard.Valid() && guard.Covers(s, base) && line.sent == DestinationAt(line.script) + 1
      requires failed == DragFails(line.script) && throws == DragThrows(line.script, auditThrows)
      requires forall i :: guard.Residual(i) <==> DragLeft(line.script, i)
      modifies this`quarantined, this`escaped, guard, line`sent, s
      ensures e == if DragDone(line.script, auditThrows) then Done else Failed
      ensures escaped == if DragEscapes(line.script, auditThrows) then old(escaped) + {s} else old(escaped)
      ensures Recorded(s, old(quarantined), DragQuarantines(line.script, auditThrows))
      ensures DragEscapes(line.script, auditThrows) ==> s.held == old(s.held)
      ensures !DragEscapes(line.script, auditThrows) && !DragQuarantines(line.script, auditThrows) ==> s.held <= base
    {
      if throws {
        if DragEscapes(line.script, auditThrows) { escaped := escaped + {s}; }
        return Failed;
      }
      guard.OrdersListResiduals();
      LeftOrder(line.script, guard.ReleaseOrder());
      if failed {
        RaiseInputFailure(s, line, guard, base);
        return Failed;
      }
      return Done;
    }

    /** The drag alone, whatever else goes on. */
    method Drag(s: Session, script: nat -> Fault, auditThrows: bool) returns (e: Ending)
      modifies this`quarantined, this`escaped, s
      ensures e == if DragDone(script, auditThrows) then Done else Failed
      ensures escaped == if DragEscapes(script, auditThrows) then old(escaped) + {s} else old(escaped)
      ensures Recorded(s, old(quarantined), DragQuarantines(script, auditThrows))
      ensures DragEscapes(script, auditThrows) ==> s.held == DragPage(script, old(s.held))
      ensures !DragEscapes(script, auditThrows) && !DragQuarantines(script, auditThrows) ==> s.held <= old(s.held)
    {
      var guard := new InputStateGuard();
      var line := new Line(script);
      ghost var base := s.held;
      var failed, throws := DragRun(s, line, guard, base, auditThrows);
      e := DragEnd(s, line, guard, base, failed, throws, auditThrows);
    }

    /** A drag. Its pointer commands stop at the first that fails; interception is then turned off if it may be on, and
        the destination is released. A drag that failed sends its safety release and quarantines, except when the
        release of the destination throws: then nothing further is sent, and what is recorded stays as it is. */
    method DragTarget(s: Session, script: nat -> Fault, auditThrows: bool) returns (e: Ending)
      requires Valid()
      modifies this`quarantined, this`escaped, s
      ensures Valid()
      ensures e == if DragDone(script, auditThrows) then Done else Failed
      ensures escaped == if DragEscapes(script, auditThrows) then old(escaped) + {s} else old(escaped)
      ensures Recorded(s, old(quarantined), DragQuarantines(script, auditThrows))
      ensures DragEscapes(script, auditThrows) ==> s.held == DragPage(script, old(s.held))
      ensures !DragEscapes(script, auditThrows) && !DragQuarantines(script, auditThrows) ==> s.held <= old(s.held)
    {
      e := Drag(s, script, auditThrows);
      forall t, i | t in attached && i in t.held && t !in quarantined && t !in escaped ensures Pending(t, i) {
        assert old(i in t.held);
        assert old(Pending(t, i));
      }
    }

    // ---- Any action.

    /** Any action on a session. In quarantine nothing with an external effect is sent; otherwise exactly a drag as
        above escapes quarantine, and exactly a raced click or a press as above leaves one stroke underway. */
    method Execute(s: Session, action: Action, fate: Fate) returns (e: Ending, ghost left: set<Stroke>)
      requires Valid() && s in attached && (action.Press? ==> action.key != "")
      modifies this`quarantined, this`escaped, this`underway, s
      ensures Valid() && underway == old(underway) + left
      ensures e.Refused? <==> s in old(quarantined) && ExternalEffect(action)
      ensures e.Refused? ==>
        left == {} && s.held == old(s.held) && quarantined == old(quarantined) && escaped == old(escaped)
      ensures !e.Refused? ==>
        && (left != {} <==> LeavesUnderway(action, fate))
        && escaped == if Escapes(action, fate) then old(escaped) + {s} else old(escaped)
      ensures forall u :: u in left ==> fresh(u) && u.page == s
      ensures forall t :: t in old(quarantined) ==> t in quarantined
      ensures s !in quarantined && s !in escaped && (forall u :: u in underway ==> u.page != s) ==> s.held == {}
    {
      left := {};
      if s in quarantined && ExternalEffect(action) {
        e := Refused;
      } else {
        match action {
          case Click => e := ClickTarget(s, fate.script);
          case RacedClick => e, left := RacedClick(s, fate.script, fate.replies, fate.otherFails);
          case Drag => e := DragTarget(s, fate.script, fate.auditThrows);
          case Press(key, prepared) =>
            e, left := PressKey(s, key, prepared, fate.script, fate.auditThrows, fate.overtakes);
          case Other(_) =>
            var line := new Line(fate.script);
            var ok := line.Send();
            e := if ok then Done else Failed;
        }
      }
      NothingUnaccounted(s);
    }

    lemma {:induction false} NothingUnaccounted(s: Session)
      requires Valid() && s in attached
      ensures s !in quarantined && s !in escaped && (forall u :: u in underway ==> u.page != s) ==> s.held == {}
    {
      if s !in quarantined && s !in escaped && s.held != {} {
        var i :| i in s.held;
        assert Pending(s, i);
      }
    }
  }

  // ---- One action each that leaves an input down outside quarantine.

  /** The script whose commands are acknowledged except for these. */
  function Script(except: map<nat, Fault>): nat -> Fault { n => if n in except then except[n] else Fine }

  /** A drag whose press takes effect but is not acknowledged, and whose destination cannot be released and that not be
      audited: the button stays down, nothing is quarantined. */
  lemma {:induction false} OneEscapingDrag()
    ensures var script := Script(map[3 := EffectOnly, 5 := NoEffect]);
      && DragEscapes(script, true) && !DragQuarantines(script, true)
      && DragPage(script, {}) == {Button("left")}
  {
    var script := Script(map[3 := EffectOnly, 5 := NoEffect]);
    assert Leading(script, 2) == 2 && Leading(script, 4) == 3;
    LeadingGrows(script, 4, DRAG_STEPS);
  }

  /** A press on a target whose keyDown takes effect but is not acknowledged, whose safety release fails, and whose
      target cannot be released and that not be audited: the action ends with the key down and nothing quarantined. Only
      when the safety release is answered is the session quarantined. */
  lemma {:induction false} OneUnsafePress(i: Input)
    ensures var script := Script(map[2 := EffectOnly, 3 := NoEffect, 4 := NoEffect]);
      && PressLeftUnderway(true, script, true, true)
      && StrokePage(script, PressAt(true), {}, i) == {i} && StrokeResult(script, PressAt(true)).1
  {
  }

  /** A raced click: the other side fails after the press was acknowledged, and the click's release is lost. */
  lemma {:induction false} OneUnsafeClick(i: Input)
    ensures var script := Script(map[1 := NoEffect, 2 := NoEffect]);
      ClickLeftUnderway(script, 2, true) && StrokePage(script, 0, {}, i) == {i} && StrokeResult(script, 0).1
  {
  }
}
