/** Opaque locators and context epochs. A locator remembers the epoch its tree was read in; events that replace a
    context may arrive between any two commands of anyone. */
module Locators {
  type SessionId = nat
  type LocatorRef = nat
  type Client = nat

  datatype Session = Session(contextEpoch: nat, attached: bool)

  /** `readAt` is the moment in the history at which the tree the locator comes from had been read; `owners` is how many
      frames of the root's own process stand between the root and the node, `separate` whether its frame has a process
      of its own. */
  datatype Locator = Locator(session: SessionId, contextEpoch: nat, backendNodeId: nat, owners: nat, separate: bool,
                             readAt: nat)

  /** How many frame owners a use of the locator has to find. */
  function Frames(l: Locator): nat { if l.separate then 1 else l.owners }

  datatype Step =
    | ReadTree(perceives: bool)              // an observation reads the tree
    | Issue(contextEpoch: nat, readAt: nat, perceives: bool)              // and issues its locators
    | LookUp(ref: LocatorRef)                // a use looks its locator up
    | GuardTree(ref: LocatorRef, locator: Locator)                        // reads the frame tree
    | FindFrame(ref: LocatorRef, locator: Locator)                        // asks for the separate frames
    | CheckOwner(ref: LocatorRef, locator: Locator, k: nat, there: nat)   // asks for the owner of its k-th frame
    | ResolveNode(ref: LocatorRef, locator: Locator)                      // resolves its node
    | ElementOf(ref: LocatorRef, locator: Locator)                        // asks a text node for its element

  datatype Task = Task(session: SessionId, at: Step)

  /** One node of a tree that becomes a locator. */
  datatype TreeNode = TreeNode(backendNodeId: nat, owners: nat, separate: bool)

  datatype Node = NoObject | Element | TextNode

  /** What comes back from the browser, one part for each step: the nodes of a tree; how many of the locator's frames,
      from the root down, are as they were; whether the permission admits the next of them; whether an owner has a
      node; what the node resolved to; whether a text node still has a connected element. */
  datatype Answer = Answer(nodes: seq<TreeNode>, there: nat, allowed: bool, ownerKnown: bool, node: Node,
                           connected: bool)

  /** The reasons for which a locator is reported stale. */
  datatype Reason = UnknownReference | ReplacedDocument | ReplacedFrame | OwnerChanged | TargetChanged | ElementGone

  datatype Verdict = GoesOn(next: Step) | Got | Missing | Denied | Stale(reason: Reason)

  /** What happened, in order: a context of an attached session was replaced, an observation issued locators, a clear
      forgot some, a step of a use was answered. */
  datatype Happening =
    | Replaced(session: SessionId)
    | Issued(session: SessionId, refs: set<LocatorRef>)
    | Forgot(refs: set<LocatorRef>)
    | Answered(session: SessionId, at: Step, answer: Answer, verdict: Verdict)

  datatype State = State(sessions: map<SessionId, Session>, locators: map<LocatorRef, Locator>,
                         sessionLocators: map<SessionId, set<LocatorRef>>, nextRef: LocatorRef,
                         tasks: map<Client, Task>,
                         log: seq<Happening>)

  const INITIAL := State(map[], map[], map[], 0, map[], [])

  datatype Event =
    | Attach(session: SessionId)
    | Detach(session: SessionId)
    | Navigate(session: SessionId)                 // a context of an attached session is replaced
    | Observe(client: Client, session: SessionId, perceives: bool)
    | Use(client: Client, session: SessionId, ref: LocatorRef)
    | Completes(client: Client, answer: Answer)    // what the client waits for comes back
    | Fails(client: Client)                        // it throws
    | Clear(session: SessionId)                    // the session's locators are forgotten

  /** A command's answer carries this. */
  function Epoch(s: State, session: SessionId): nat {
    if session in s.sessions then s.sessions[session].contextEpoch else 0
  }

  function Log(s: State, h: Happening): State { s.(log := s.log + [h]) }

  /** A locator of an overlapping earlier observation is in no set and stays. */
  function ClearLocators(s: State, session: SessionId): State {
    var refs := if session in s.sessionLocators then s.sessionLocators[session] else {};
    Log(s, Forgot(refs)).(locators := s.locators - refs, sessionLocators := s.sessionLocators - {session})
  }

  function RefsFrom(first: LocatorRef, count: nat): (refs: set<LocatorRef>)
    ensures forall r: LocatorRef :: r in refs <==> first <= r < first + count
  {
    if count == 0 then {} else RefsFrom(first, count - 1) + {first + count - 1}
  }

  /** Adds one locator per node, under fresh references. */
  function AddLocators(s: State, session: SessionId, epoch: nat, readAt: nat, nodes: seq<TreeNode>): (r: State)
    ensures r.sessions == s.sessions && r.tasks == s.tasks && r.log == s.log
    ensures r.nextRef == s.nextRef + |nodes|
    ensures r.locators.Keys == s.locators.Keys + RefsFrom(s.nextRef, |nodes|)
    ensures forall ref :: ref in r.locators ==> if ref in RefsFrom(s.nextRef, |nodes|)
      then r.locators[ref].session == session && r.locators[ref].contextEpoch == epoch
        && r.locators[ref].readAt == readAt
      else r.locators[ref] == s.locators[ref]
    decreases |nodes|
  {
    if nodes == [] then s
    else
      var short := AddLocators(s, session, epoch, readAt, nodes[..|nodes| - 1]);
      var node := nodes[|nodes| - 1];
      short.(locators := short.locators[short.nextRef := Locator(session, epoch, node.backendNodeId, node.owners,
                                                                 node.separate, readAt)],
             nextRef := short.nextRef + 1)
  }

  function Done(s: State, c: Client): State { s.(tasks := s.tasks - {c}) }

  /** A command is sent in an attached session only; in any other it throws at once. */
  function Await(s: State, c: Client, session: SessionId, at: Step): State {
    if session in s.sessions && s.sessions[session].attached then s.(tasks := s.tasks[c := Task(session, at)])
    else Done(s, c)
  }

  function LookedUp(s: State, session: SessionId, ref: LocatorRef): Verdict {
    if ref !in s.locators || s.locators[ref].session != session then Stale(UnknownReference)
    else GoesOn(GuardTree(ref, s.locators[ref]))
  }

  /** The next frame on the way is looked at before its owner is asked for. */
  function Enter(ref: LocatorRef, l: Locator, k: nat, there: nat, allowed: bool): Verdict {
    if there <= k then Stale(ReplacedFrame)
    else if !allowed then Denied
    else GoesOn(CheckOwner(ref, l, k, there))
  }

  /** What a use makes of an answer that carries the epoch. */
  function Judged(at: Step, epoch: nat, a: Answer): Verdict
    requires !at.ReadTree? && !at.Issue? && !at.LookUp?
  {
    var l := at.locator;
    var same := epoch == l.contextEpoch;
    match at
    case GuardTree(ref, _) =>
      if !same then Stale(ReplacedDocument)
      else if l.separate then GoesOn(FindFrame(ref, l))
      else if l.owners > 0 then Enter(ref, l, 0, a.there, a.allowed)
      else GoesOn(ResolveNode(ref, l))
    case FindFrame(ref, _) => Enter(ref, l, 0, a.there, a.allowed)
    case CheckOwner(ref, _, k, there) =>
      if !same || !a.ownerKnown then Stale(OwnerChanged)
      else if k + 1 < Frames(l) then Enter(ref, l, k + 1, there, a.allowed)
      else GoesOn(ResolveNode(ref, l))
    case ResolveNode(ref, _) =>
      if l.separate && (!same || a.node == NoObject) then Stale(TargetChanged)
      else if !same then Stale(ReplacedDocument)
      else (match a.node
            case NoObject => Missing
            case Element => Got
            case TextNode => GoesOn(ElementOf(ref, l)))
    case ElementOf(_, _) => if !same || !a.connected then Stale(ElementGone) else Got
  }

  /** With some of the stale answers the locators of the session go. */
  predicate Clears(at: Step, v: Verdict) {
    || v == Stale(ReplacedDocument)
    || v == Stale(ReplacedFrame)
    || (v == Stale(OwnerChanged) && at.CheckOwner? && !at.locator.separate)
  }

  /** The answered step is logged; the use goes on to its next command or ends. */
  function Tell(s: State, c: Client, session: SessionId, at: Step, a: Answer, v: Verdict): State {
    var told := Log(s, Answered(session, at, a, v));
    var cleared := if Clears(at, v) then ClearLocators(told, session) else told;
    if v.GoesOn? then Await(cleared, c, session, v.next) else Done(cleared, c)
  }

  function IssueLocators(s: State, session: SessionId, epoch: nat, readAt: nat, nodes: seq<TreeNode>): State {
    var refs := RefsFrom(s.nextRef, |nodes|);
    var added := AddLocators(s, session, epoch, readAt, nodes);
    Log(added, Issued(session, refs)).(sessionLocators := added.sessionLocators[session := refs])
  }

  function Complete(s: State, c: Client, a: Answer): State
    requires c in s.tasks
  {
    var session := s.tasks[c].session;
    var at := s.tasks[c].at;
    match at
    case ReadTree(perceives) =>
      s.(tasks := s.tasks[c := Task(session, Issue(Epoch(s, session), |s.log|, perceives))])
    case Issue(epoch, readAt, perceives) =>
      var ready := if perceives then ClearLocators(s, session) else s;
      Done(IssueLocators(ready, session, epoch, readAt, a.nodes), c)
    case LookUp(ref) => Tell(s, c, session, at, a, LookedUp(s, session, ref))
    case _ => Tell(s, c, session, at, a, Judged(at, Epoch(s, session), a))
  }

  /** A snapshot forgets the session's locators before it reads the tree, a perception when it issues new ones. */
  function Next(s: State, e: Event): State {
    match e
    case Attach(session) =>
      if session in s.sessions then s else s.(sessions := s.sessions[session := Session(0, true)])
    case Detach(session) =>
      if session !in s.sessions then s
      else s.(sessions := s.sessions[session := s.sessions[session].(attached := false)])
    case Navigate(session) =>
      if session !in s.sessions || !s.sessions[session].attached then s
      else Log(s, Replaced(session)).(sessions := s.sessions[session := Session(Epoch(s, session) + 1, true)])
    case Observe(client, session, perceives) =>
      if client in s.tasks then s
      else Await(if perceives then s else ClearLocators(s, session), client, session, ReadTree(perceives))
    case Use(client, session, ref) =>
      if client in s.tasks then s else s.(tasks := s.tasks[client := Task(session, LookUp(ref))])
    case Completes(client, answer) => if client in s.tasks then Complete(s, client, answer) else s
    case Fails(client) => Done(s, client)
    case Clear(session) => ClearLocators(s, session)
  }

  function Run(events: seq<Event>): State
    decreases |events|
  {
    if events == [] then INITIAL else Next(Run(events[..|events| - 1]), events[|events| - 1])
  }

  // ---- Epochs count replacements.

  ghost function Replacements(log: seq<Happening>, session: SessionId): nat
    decreases |log|
  {
    if log == [] then 0
    else Replacements(log[..|log| - 1], session) + (if log[|log| - 1] == Replaced(session) then 1 else 0)
  }

  lemma {:induction false} ReplacementsAppend(log: seq<Happening>, h: Happening, session: SessionId)
    ensures Replacements(log + [h], session) == Replacements(log, session) + (if h == Replaced(session) then 1 else 0)
  {
    assert (log + [h])[..|log|] == log;
  }

  /** No context of the session was replaced between the two moments. */
  ghost predicate Undisturbed(log: seq<Happening>, from: nat, until: nat, session: SessionId) {
    from <= until <= |log| && forall i :: from <= i < until ==> log[i] != Replaced(session)
  }

  /** The counts at two moments agree exactly when nothing was replaced in between. */
  lemma {:induction false} SameCountMeansUndisturbed(log: seq<Happening>, from: nat, until: nat, session: SessionId)
    requires from <= until <= |log|
    ensures Replacements(log[..from], session) <= Replacements(log[..until], session)
    ensures Replacements(log[..from], session) == Replacements(log[..until], session)
       <==> Undisturbed(log, from, until, session)
    decreases until
  {
    if from < until {
      SameCountMeansUndisturbed(log, from, until - 1, session);
      assert log[..until][..until - 1] == log[..until - 1];
    }
  }

  // ---- A reference is known from its issue to its clearing.

  ghost predicate Issues(h: Happening, session: SessionId, ref: LocatorRef) {
    h.Issued? && h.session == session && ref in h.refs
  }

  ghost predicate Forgets(h: Happening, ref: LocatorRef) { h.Forgot? && ref in h.refs }

  ghost predicate KeptSince(log: seq<Happening>, k: nat, ref: LocatorRef) {
    forall j :: k < j < |log| ==> !Forgets(log[j], ref)
  }

  /** The reference was issued in the session and not forgotten since. */
  ghost predicate Known(log: seq<Happening>, session: SessionId, ref: LocatorRef) {
    exists k: nat :: k < |log| && Issues(log[k], session, ref) && KeptSince(log, k, ref)
  }

  lemma {:induction false} KnownAppend(log: seq<Happening>, h: Happening, session: SessionId, ref: LocatorRef)
    ensures Known(log + [h], session, ref)
       <==> Issues(h, session, ref) || (Known(log, session, ref) && !Forgets(h, ref))
  {
    var more := log + [h];
    if Issues(h, session, ref) {
      assert Issues(more[|log|], session, ref) && KeptSince(more, |log|, ref);
    }
    if Known(log, session, ref) && !Forgets(h, ref) {
      var k: nat :| k < |log| && Issues(log[k], session, ref) && KeptSince(log, k, ref);
      assert forall j :: k < j < |log| ==> more[j] == log[j] && !Forgets(log[j], ref);
      assert more[k] == log[k] && KeptSince(more, k, ref);
    }
    if Known(more, session, ref) && !Issues(h, session, ref) {
      var k: nat :| k < |more| && Issues(more[k], session, ref) && KeptSince(more, k, ref);
      assert k < |log| && more[|log|] == h;
      assert forall j :: k < j < |log| ==> log[j] == more[j] && !Forgets(more[j], ref);
      assert log[k] == more[k] && KeptSince(log, k, ref);
    }
  }

  // ---- What an answered step tells, in terms of the history before it.

  /** The locator's context was replaced since its tree was read. */
  ghost predicate ContextReplaced(log: seq<Happening>, l: Locator) { !Undisturbed(log, l.readAt, |log|, l.session) }

  /** The step's answer shows one of the causes a locator is reported stale for. */
  ghost predicate StaleCause(log: seq<Happening>, session: SessionId, at: Step, a: Answer) {
    match at
    case LookUp(ref) => !Known(log, session, ref)
    case GuardTree(_, l) => ContextReplaced(log, l) || (!l.separate && l.owners > 0 && a.there == 0)
    case FindFrame(_, _) => a.there == 0
    case CheckOwner(_, l, k, there) =>
      ContextReplaced(log, l) || !a.ownerKnown || (!l.separate && k + 1 < l.owners && there <= k + 1)
    case ResolveNode(_, l) => ContextReplaced(log, l) || (l.separate && a.node == NoObject)
    case ElementOf(_, l) => ContextReplaced(log, l) || !a.connected
    case _ => false
  }

  /** The two commands after which a replaced context is reported as a replaced document. */
  predicate TellsOfDocument(at: Step) { at.GuardTree? || (at.ResolveNode? && !at.locator.separate) }

  predicate BringsElement(at: Step, a: Answer) {
    (at.ResolveNode? && a.node == Element) || at.ElementOf?
  }

  /** The step looks at the next frame on the way, which the permission does not admit. */
  predicate AtForbiddenFrame(at: Step, a: Answer) {
    && !a.allowed
    && match at
       case GuardTree(_, l) => !l.separate && l.owners > 0
       case FindFrame(_, _) => true
       case CheckOwner(_, l, k, _) => k + 1 < Frames(l)
       case _ => false
  }

  ghost predicate IssuedIn(log: seq<Happening>, session: SessionId, ref: LocatorRef) {
    exists k: nat :: k < |log| && Issues(log[k], session, ref)
  }

  /** A use read which of the locator's frames are as they were: in the frame tree, or from the separate frames. */
  ghost predicate ShowsFrames(h: Happening, session: SessionId, ref: LocatorRef, l: Locator, there: nat) {
    && h.Answered? && h.session == session && h.answer.there == there
    && h.at == if l.separate then FindFrame(ref, l) else GuardTree(ref, l)
  }

  ghost predicate FramesSeen(log: seq<Happening>, session: SessionId, ref: LocatorRef, l: Locator, there: nat) {
    exists i: nat :: i < |log| && ShowsFrames(log[i], session, ref, l, there)
  }

  /** A use found the owner of the locator's k-th frame. */
  ghost predicate OwnerFound(h: Happening, session: SessionId, ref: LocatorRef, l: Locator, k: nat) {
    && h.Answered? && h.session == session && h.at.CheckOwner? && h.at.ref == ref && h.at.locator == l && h.at.k == k
    && h.answer.ownerKnown
  }

  /** The k-th frame was seen as it was, and its owner was found. */
  ghost predicate FrameChecked(log: seq<Happening>, session: SessionId, ref: LocatorRef, l: Locator, k: nat) {
    && (exists there: nat :: k < there && FramesSeen(log, session, ref, l, there))
    && (exists j: nat :: j < |log| && OwnerFound(log[j], session, ref, l, k))
  }

  ghost predicate FramesChecked(log: seq<Happening>, session: SessionId, ref: LocatorRef, l: Locator, count: nat) {
    forall k: nat :: k < count ==> FrameChecked(log, session, ref, l, k)
  }

  /** The epoch was the session's when its tree had been read. */
  ghost predicate Stamped(log: seq<Happening>, session: SessionId, epoch: nat, readAt: nat) {
    readAt <= |log| && epoch == Replacements(log[..readAt], session)
  }

  ghost predicate LocatorHolds(log: seq<Happening>, l: Locator) { Stamped(log, l.session, l.contextEpoch, l.readAt) }

  /** The locator is one that was issued under its reference in this session. */
  ghost predicate Its(log: seq<Happening>, session: SessionId, ref: LocatorRef, l: Locator) {
    LocatorHolds(log, l) && l.session == session && IssuedIn(log, session, ref)
  }

  ghost predicate StepHolds(log: seq<Happening>, session: SessionId, at: Step) {
    match at
    case ReadTree(_) => true
    case LookUp(_) => true
    case Issue(epoch, readAt, _) => Stamped(log, session, epoch, readAt)
    case GuardTree(ref, l) => Its(log, session, ref, l)
    case FindFrame(ref, l) => Its(log, session, ref, l) && l.separate
    case CheckOwner(ref, l, k, there) =>
      && Its(log, session, ref, l) && FramesChecked(log, session, ref, l, k) && k < Frames(l)
      && k < there && FramesSeen(log, session, ref, l, there)
    case ResolveNode(ref, l) => Its(log, session, ref, l) && FramesChecked(log, session, ref, l, Frames(l))
    case ElementOf(ref, l) => Its(log, session, ref, l) && FramesChecked(log, session, ref, l, Frames(l))
  }

  /** What is due to the step after the history `log`, whatever the epochs are. */
  ghost predicate VerdictHolds(log: seq<Happening>, session: SessionId, at: Step, a: Answer, v: Verdict) {
    && (v.Stale? <==> StaleCause(log, session, at, a))
    && (v == Stale(UnknownReference) <==> at.LookUp? && StaleCause(log, session, at, a))
    && (v == Stale(ReplacedDocument) <==> TellsOfDocument(at) && ContextReplaced(log, at.locator))
    && (v == Got <==> BringsElement(at, a) && !StaleCause(log, session, at, a))
    && (v == Missing <==> at.ResolveNode? && a.node == NoObject && !StaleCause(log, session, at, a))
    && (v == Denied <==> AtForbiddenFrame(at, a) && !StaleCause(log, session, at, a))
  }

  ghost predicate HappeningHolds(log: seq<Happening>, h: Happening) {
    h.Answered? ==>
      && !h.at.ReadTree?
      && !h.at.Issue?
      && StepHolds(log, h.session, h.at)
      && VerdictHolds(log, h.session, h.at, h.answer, h.verdict)
  }

  // ---- The invariant.

  ghost predicate EpochsCount(s: State) {
    forall id: SessionId :: Epoch(s, id) == Replacements(s.log, id)
  }

  ghost predicate LocatorsHold(s: State) {
    && (forall r :: r in s.locators ==> r < s.nextRef && LocatorHolds(s.log, s.locators[r]))
    && (forall r: LocatorRef, id: SessionId ::
          Known(s.log, id, r) <==> r in s.locators && s.locators[r].session == id)
  }

  ghost predicate TasksHold(s: State) {
    forall c :: c in s.tasks ==> StepHolds(s.log, s.tasks[c].session, s.tasks[c].at)
  }

  ghost predicate LogHolds(log: seq<Happening>) {
    forall i :: 0 <= i < |log| ==> HappeningHolds(log[..i], log[i])
  }

  ghost predicate Inv(s: State) { EpochsCount(s) && LocatorsHold(s) && TasksHold(s) && LogHolds(s.log) }

  // ---- What holds of a history holds of a longer one.

  lemma {:induction false} StampedStays(log: seq<Happening>, h: Happening, session: SessionId, epoch: nat, readAt: nat)
    requires Stamped(log, session, epoch, readAt)
    ensures Stamped(log + [h], session, epoch, readAt)
  {
    assert (log + [h])[..readAt] == log[..readAt];
  }

  lemma {:induction false} ItsStays(log: seq<Happening>, h: Happening, session: SessionId, ref: LocatorRef, l: Locator)
    requires Its(log, session, ref, l)
    ensures Its(log + [h], session, ref, l)
  {
    StampedStays(log, h, l.session, l.contextEpoch, l.readAt);
    var k: nat :| k < |log| && Issues(log[k], session, ref);
    assert Issues((log + [h])[k], session, ref);
  }

  lemma {:induction false} SeenStays(log: seq<Happening>, h: Happening, session: SessionId, ref: LocatorRef, l: Locator,
                                     there: nat)
    requires FramesSeen(log, session, ref, l, there)
    ensures FramesSeen(log + [h], session, ref, l, there)
  {
    var i: nat :| i < |log| && ShowsFrames(log[i], session, ref, l, there);
    assert ShowsFrames((log + [h])[i], session, ref, l, there);
  }

  lemma {:induction false} FramesStay(log: seq<Happening>, h: Happening, session: SessionId, ref: LocatorRef,
                                      l: Locator, count: nat)
    requires FramesChecked(log, session, ref, l, count)
    ensures FramesChecked(log + [h], session, ref, l, count)
  {
    forall k: nat | k < count ensures FrameChecked(log + [h], session, ref, l, k) {
      assert FrameChecked(log, session, ref, l, k);
      var there: nat :| k < there && FramesSeen(log, session, ref, l, there);
      SeenStays(log, h, session, ref, l, there);
      var j: nat :| j < |log| && OwnerFound(log[j], session, ref, l, k);
      assert OwnerFound((log + [h])[j], session, ref, l, k);
    }
  }

  lemma {:induction false} StepStays(log: seq<Happening>, h: Happening, session: SessionId, at: Step)
    requires StepHolds(log, session, at)
    ensures StepHolds(log + [h], session, at)
  {
    match at
    case ReadTree(_) =>
    case LookUp(_) =>
    case Issue(epoch, readAt, _) => StampedStays(log, h, session, epoch, readAt);
    case GuardTree(ref, l) => ItsStays(log, h, session, ref, l);
    case FindFrame(ref, l) => ItsStays(log, h, session, ref, l);
    case CheckOwner(ref, l, k, there) =>
      ItsStays(log, h, session, ref, l);
      SeenStays(log, h, session, ref, l, there);
      FramesStay(log, h, session, ref, l, k);
    case ResolveNode(ref, l) =>
      ItsStays(log, h, session, ref, l);
      FramesStay(log, h, session, ref, l, Frames(l));
    case ElementOf(ref, l) =>
      ItsStays(log, h, session, ref, l);
      FramesStay(log, h, session, ref, l, Frames(l));
  }

  lemma {:induction false} LogAppend(log: seq<Happening>, h: Happening)
    requires LogHolds(log) && HappeningHolds(log, h)
    ensures LogHolds(log + [h])
  {
    var more := log + [h];
    forall i | 0 <= i < |more| ensures HappeningHolds(more[..i], more[i]) {
      if i < |log| {
        assert more[..i] == log[..i] && more[i] == log[i];
      } else {
        assert more[..i] == log;
      }
    }
  }

  lemma {:induction false} TasksStay(s: State, h: Happening)
    requires TasksHold(s)
    ensures TasksHold(Log(s, h))
  {
    forall c | c in s.tasks ensures StepHolds(s.log + [h], s.tasks[c].session, s.tasks[c].at) {
      StepStays(s.log, h, s.tasks[c].session, s.tasks[c].at);
    }
  }

  lemma {:induction false} StampsStay(s: State, h: Happening)
    requires forall r :: r in s.locators ==> LocatorHolds(s.log, s.locators[r])
    ensures forall r :: r in s.locators ==> LocatorHolds(s.log + [h], s.locators[r])
  {
    forall r | r in s.locators ensures LocatorHolds(s.log + [h], s.locators[r]) {
      var l := s.locators[r];
      StampedStays(s.log, h, l.session, l.contextEpoch, l.readAt);
    }
  }

  lemma {:induction false} KnownsAppend(log: seq<Happening>, h: Happening)
    ensures forall r: LocatorRef, id: SessionId ::
              Known(log + [h], id, r) <==> Issues(h, id, r) || (Known(log, id, r) && !Forgets(h, r))
  {
    forall r: LocatorRef, id: SessionId
      ensures Known(log + [h], id, r) <==> Issues(h, id, r) || (Known(log, id, r) && !Forgets(h, r))
    {
      KnownAppend(log, h, id, r);
    }
  }

  lemma {:induction false} EpochsAppend(s: State, h: Happening)
    requires EpochsCount(s) && !h.Replaced?
    ensures EpochsCount(Log(s, h))
  {
    forall id: SessionId ensures Epoch(Log(s, h), id) == Replacements(s.log + [h], id) {
      ReplacementsAppend(s.log, h, id);
    }
  }

  // ---- Every event keeps the invariant.

  lemma {:induction false} ReplacingKeeps(s: State, session: SessionId)
    requires Inv(s) && session in s.sessions && s.sessions[session].attached
    ensures Inv(Next(s, Navigate(session)))
  {
    var h := Replaced(session);
    var n := Next(s, Navigate(session));
    forall id: SessionId ensures Epoch(n, id) == Replacements(n.log, id) { ReplacementsAppend(s.log, h, id); }
    KnownsAppend(s.log, h);
    StampsStay(s, h);
    TasksStay(s, h);
    LogAppend(s.log, h);
  }

  lemma {:induction false} AnswerKeeps(s: State, h: Happening)
    requires Inv(s) && h.Answered? && HappeningHolds(s.log, h)
    ensures Inv(Log(s, h))
  {
    EpochsAppend(s, h);
    KnownsAppend(s.log, h);
    StampsStay(s, h);
    TasksStay(s, h);
    LogAppend(s.log, h);
  }

  lemma {:induction false} ClearKeeps(s: State, session: SessionId)
    requires Inv(s)
    ensures Inv(ClearLocators(s, session))
  {
    var refs := if session in s.sessionLocators then s.sessionLocators[session] else {};
    var h := Forgot(refs);
    EpochsAppend(s, h);
    KnownsAppend(s.log, h);
    StampsStay(s, h);
    TasksStay(s, h);
    LogAppend(s.log, h);
  }

  /** Fresh references become known in the session, and nothing else changes. */
  lemma {:induction false} IssuedAreKnown(s: State, session: SessionId, epoch: nat, readAt: nat, nodes: seq<TreeNode>)
    requires LocatorsHold(s) && Stamped(s.log, session, epoch, readAt)
    ensures LocatorsHold(IssueLocators(s, session, epoch, readAt, nodes))
  {
    var added := AddLocators(s, session, epoch, readAt, nodes);
    var h := Issued(session, RefsFrom(s.nextRef, |nodes|));
    KnownsAppend(s.log, h);
    StampsStay(added, h);
  }

  lemma {:induction false} IssueKeeps(s: State, session: SessionId, epoch: nat, readAt: nat, nodes: seq<TreeNode>)
    requires Inv(s) && Stamped(s.log, session, epoch, readAt)
    ensures Inv(IssueLocators(s, session, epoch, readAt, nodes))
  {
    var h := Issued(session, RefsFrom(s.nextRef, |nodes|));
    EpochsAppend(s, h);
    IssuedAreKnown(s, session, epoch, readAt, nodes);
    TasksStay(s, h);
    LogAppend(s.log, h);
  }

  /** At a completed command the epoch tells exactly whether the locator's context was replaced since its tree was read.
      */
  lemma {:induction false} EpochTells(s: State, session: SessionId, l: Locator)
    requires Inv(s) && LocatorHolds(s.log, l) && l.session == session
    ensures Epoch(s, session) == l.contextEpoch <==> Undisturbed(s.log, l.readAt, |s.log|, session)
  {
    SameCountMeansUndisturbed(s.log, l.readAt, |s.log|, session);
    assert s.log[..|s.log|] == s.log;
  }

  lemma {:induction false} JudgedHolds(s: State, session: SessionId, at: Step, a: Answer)
    requires Inv(s) && StepHolds(s.log, session, at) && !at.ReadTree? && !at.Issue? && !at.LookUp?
    ensures VerdictHolds(s.log, session, at, a, Judged(at, Epoch(s, session), a))
  {
    EpochTells(s, session, at.locator);
  }

  /** A use that goes on stands right at its next step. */
  lemma {:induction false} NextStepHolds(s: State, session: SessionId, at: Step, a: Answer)
    requires Inv(s) && StepHolds(s.log, session, at) && !at.ReadTree? && !at.Issue? && !at.LookUp?
    requires Judged(at, Epoch(s, session), a).GoesOn?
    ensures var v := Judged(at, Epoch(s, session), a);
      StepHolds(s.log + [Answered(session, at, a, v)], session, v.next)
  {
    var v := Judged(at, Epoch(s, session), a);
    var h := Answered(session, at, a, v);
    StepStays(s.log, h, session, at);
    if v.next.CheckOwner? && !at.CheckOwner? {
      assert ShowsFrames((s.log + [h])[|s.log|], session, at.ref, at.locator, a.there);
    }
    if at.CheckOwner? {
      assert OwnerFound((s.log + [h])[|s.log|], session, at.ref, at.locator, at.k);
      assert FrameChecked(s.log + [h], session, at.ref, at.locator, at.k);
    }
  }

  lemma {:induction false} LookedUpHolds(s: State, session: SessionId, ref: LocatorRef, a: Answer)
    requires Inv(s)
    ensures var v := LookedUp(s, session, ref);
      && VerdictHolds(s.log, session, LookUp(ref), a, v)
      && (v.GoesOn? ==> StepHolds(s.log + [Answered(session, LookUp(ref), a, v)], session, v.next))
  {
    var v := LookedUp(s, session, ref);
    if v.GoesOn? {
      assert Known(s.log, session, ref);
      var k: nat :| k < |s.log| && Issues(s.log[k], session, ref) && KeptSince(s.log, k, ref);
      ItsStays(s.log, Answered(session, LookUp(ref), a, v), session, ref, s.locators[ref]);
    }
  }

  lemma {:induction false} AwaitKeeps(s: State, c: Client, session: SessionId, at: Step)
    requires Inv(s) && StepHolds(s.log, session, at)
    ensures Inv(s.(tasks := s.tasks[c := Task(session, at)]))
    ensures Inv(Await(s, c, session, at))
  {
  }

  lemma {:induction false} DoneKeeps(s: State, c: Client)
    requires Inv(s)
    ensures Inv(Done(s, c))
  {
  }

  lemma {:induction false} TellKeeps(s: State, c: Client, session: SessionId, at: Step, a: Answer, v: Verdict)
    requires Inv(s) && HappeningHolds(s.log, Answered(session, at, a, v))
    requires v.GoesOn? ==> StepHolds(s.log + [Answered(session, at, a, v)], session, v.next)
    ensures Inv(Tell(s, c, session, at, a, v))
  {
    var h := Answered(session, at, a, v);
    var told := Log(s, h);
    AnswerKeeps(s, h);
    if Clears(at, v) {
      ClearKeeps(told, session);
      DoneKeeps(ClearLocators(told, session), c);
    } else if v.GoesOn? {
      AwaitKeeps(told, c, session, v.next);
    } else {
      DoneKeeps(told, c);
    }
  }

  lemma {:induction false} ReadKeeps(s: State, c: Client, session: SessionId, perceives: bool)
    requires Inv(s)
    ensures Inv(s.(tasks := s.tasks[c := Task(session, Issue(Epoch(s, session), |s.log|, perceives))]))
  {
    assert s.log[..|s.log|] == s.log;
    AwaitKeeps(s, c, session, Issue(Epoch(s, session), |s.log|, perceives));
  }

  lemma {:induction false} IssuingKeeps(s: State, c: Client, session: SessionId, epoch: nat, readAt: nat,
                                        perceives: bool, nodes: seq<TreeNode>)
    requires Inv(s) && Stamped(s.log, session, epoch, readAt)
    ensures var ready := if perceives then ClearLocators(s, session) else s;
      Inv(Done(IssueLocators(ready, session, epoch, readAt, nodes), c))
  {
    var ready := if perceives then ClearLocators(s, session) else s;
    if perceives {
      ClearKeeps(s, session);
      StampedStays(s.log, ready.log[|s.log|], session, epoch, readAt);
    }
    IssueKeeps(ready, session, epoch, readAt, nodes);
    DoneKeeps(IssueLocators(ready, session, epoch, readAt, nodes), c);
  }

  lemma {:induction false} UseKeeps(s: State, c: Client, session: SessionId, at: Step, a: Answer)
    requires Inv(s) && StepHolds(s.log, session, at) && !at.ReadTree? && !at.Issue? && !at.LookUp?
    ensures Inv(Tell(s, c, session, at, a, Judged(at, Epoch(s, session), a)))
  {
    var v := Judged(at, Epoch(s, session), a);
    JudgedHolds(s, session, at, a);
    if v.GoesOn? { NextStepHolds(s, session, at, a); }
    TellKeeps(s, c, session, at, a, v);
  }

  lemma {:induction false} CompleteKeepsInv(s: State, c: Client, a: Answer)
    requires Inv(s) && c in s.tasks
    ensures Inv(Complete(s, c, a))
  {
    var session := s.tasks[c].session;
    var at := s.tasks[c].at;
    assert StepHolds(s.log, session, at);
    match at
    case ReadTree(perceives) => ReadKeeps(s, c, session, perceives);
    case Issue(epoch, readAt, perceives) => IssuingKeeps(s, c, session, epoch, readAt, perceives, a.nodes);
    case LookUp(ref) =>
      LookedUpHolds(s, session, ref, a);
      TellKeeps(s, c, session, at, a, LookedUp(s, session, ref));
    case _ => UseKeeps(s, c, session, at, a);
  }

  lemma {:induction false} SessionKeeps(s: State, session: SessionId, attached: bool)
    requires Inv(s)
    ensures Inv(s.(sessions := s.sessions[session := Session(Epoch(s, session), attached)]))
  {
    var n := s.(sessions := s.sessions[session := Session(Epoch(s, session), attached)]);
    assert forall id: SessionId :: Epoch(n, id) == Epoch(s, id);
  }

  lemma {:induction false} NextKeepsInv(s: State, e: Event)
    requires Inv(s)
    ensures Inv(Next(s, e))
  {
    match e
    case Attach(session) => SessionKeeps(s, session, true);
    case Detach(session) => SessionKeeps(s, session, false);
    case Navigate(session) => if session in s.sessions && s.sessions[session].attached { ReplacingKeeps(s, session); }
    case Observe(client, session, perceives) =>
      ClearKeeps(s, session);
      AwaitKeeps(if perceives then s else ClearLocators(s, session), client, session, ReadTree(perceives));
    case Use(client, session, ref) => AwaitKeeps(s, client, session, LookUp(ref));
    case Completes(client, answer) => if client in s.tasks { CompleteKeepsInv(s, client, answer); }
    case Fails(client) => DoneKeeps(s, client);
    case Clear(session) => ClearKeeps(s, session);
  }

  lemma {:induction false} InitialHolds()
    ensures Inv(INITIAL)
  {
  }

  lemma {:induction false} RunKeepsInv(events: seq<Event>)
    ensures Inv(Run(events))
    decreases |events|
  {
    if events == [] {
      InitialHolds();
    } else {
      RunKeepsInv(events[..|events| - 1]);
      NextKeepsInv(Run(events[..|events| - 1]), events[|events| - 1]);
    }
  }

  // ---- The results.

  /** No locator survives a context replacement: whatever the interleaving, a use gets an element only in the session
      its locator was issued in, only if no context of that session was replaced between the reading of the tree and the
      command that brought the element, and only after each frame on the way was found as it was, with its owner. */
  lemma {:induction false} NoLocatorSurvivesReplacement(events: seq<Event>, i: nat)
    requires i < |Run(events).log|
    requires var h := Run(events).log[i]; h.Answered? && h.verdict == Got
    ensures var log := Run(events).log[..i]; var h := Run(events).log[i];
      && BringsElement(h.at, h.answer)
      && h.at.locator.session == h.session
      && IssuedIn(log, h.session, h.at.ref)
      && Undisturbed(log, h.at.locator.readAt, i, h.session)
      && FramesChecked(log, h.session, h.at.ref, h.at.locator, Frames(h.at.locator))
  {
    RunKeepsInv(events);
    assert HappeningHolds(Run(events).log[..i], Run(events).log[i]);
  }

  /** A step of a use is answered "stale" exactly when its cause is there: the reference unknown in the session, the
      context replaced, a frame or its owner not there, no object in a separate frame, a text node without element.
      "Unknown" and "replaced document" are said exactly when that is so; an element, "missing" and "denied" are
      answered exactly when the step has come to them and there is no such cause. */
  lemma {:induction false} StaleExactly(events: seq<Event>, i: nat)
    requires i < |Run(events).log| && Run(events).log[i].Answered?
    ensures var log := Run(events).log[..i]; var h := Run(events).log[i];
      && (h.verdict.Stale? <==> StaleCause(log, h.session, h.at, h.answer))
      && (h.verdict == Stale(UnknownReference) <==> h.at.LookUp? && !Known(log, h.session, h.at.ref))
      && (h.verdict == Stale(ReplacedDocument)
          <==> TellsOfDocument(h.at) && !Undisturbed(log, h.at.locator.readAt, i, h.session))
      && (h.verdict == Got <==> BringsElement(h.at, h.answer) && !StaleCause(log, h.session, h.at, h.answer))
      && (h.verdict == Missing
          <==> h.at.ResolveNode? && h.answer.node == NoObject && !StaleCause(log, h.session, h.at, h.answer))
      && (h.verdict == Denied <==> AtForbiddenFrame(h.at, h.answer) && !StaleCause(log, h.session, h.at, h.answer))
  {
    RunKeepsInv(events);
    assert HappeningHolds(Run(events).log[..i], Run(events).log[i]);
  }

  /** A locator is there exactly from its issue in the session to the first clearing that names it. */
  lemma {:induction false} KnownExactly(events: seq<Event>, session: SessionId, ref: LocatorRef)
    ensures var s := Run(events);
      ref in s.locators && s.locators[ref].session == session <==> Known(s.log, session, ref)
  {
    RunKeepsInv(events);
  }

  /** A locator looked up is one that was issued in that session, with the epoch its tree was read in. */
  lemma {:induction false} LocatorsAreStamped(events: seq<Event>, ref: LocatorRef)
    requires ref in Run(events).locators
    ensures var s := Run(events); var l := s.locators[ref];
      && l.readAt <= |s.log|
      && l.contextEpoch == Replacements(s.log[..l.readAt], l.session)
      && IssuedIn(s.log, l.session, ref)
  {
    RunKeepsInv(events);
    var s := Run(events);
    var l := s.locators[ref];
    assert Known(s.log, l.session, ref);
  }

  // ---- Stale although nothing was replaced.

  lemma {:induction false} RunOneMore(events: seq<Event>, e: Event)
    ensures Run(events + [e]) == Next(Run(events), e)
  {
    assert (events + [e])[..|events|] == events;
  }

  /** A step of a use forgets the locators of its session's last observation exactly when it reports a replaced
      document, a replaced frame, or a changed owner in the root's own process; every other answer leaves all. */
  lemma {:induction false} AnswerForgetsExactly(events: seq<Event>, user: Client, a: Answer)
    requires var s := Run(events); user in s.tasks && !s.tasks[user].at.ReadTree? && !s.tasks[user].at.Issue?
    ensures var s := Run(events); var log := Run(events + [Completes(user, a)]).log;
      |log| > |s.log| && log[|s.log|].Answered?
    ensures var s, n := Run(events), Run(events + [Completes(user, a)]);
      var h := n.log[|s.log|];
      forall ref :: ref in n.locators <==>
        && ref in s.locators
        && !(&& (|| h.verdict == Stale(ReplacedDocument)
                 || h.verdict == Stale(ReplacedFrame)
                 || (h.verdict == Stale(OwnerChanged) && h.at.CheckOwner? && !h.at.locator.separate))
             && h.session in s.sessionLocators && ref in s.sessionLocators[h.session])
  {
    RunOneMore(events, Completes(user, a));
    var s := Run(events);
    var t := s.tasks[user];
    if t.at.LookUp? {
      TellForgets(s, user, t.session, t.at, a, LookedUp(s, t.session, t.at.ref));
    } else {
      TellForgets(s, user, t.session, t.at, a, Judged(t.at, Epoch(s, t.session), a));
    }
  }

  lemma {:induction false} TellForgets(s: State, c: Client, session: SessionId, at: Step, a: Answer, v: Verdict)
    ensures var n := Tell(s, c, session, at, a, v);
      && |n.log| > |s.log|
      && n.log[|s.log|] == Answered(session, at, a, v)
      && n.locators == if Clears(at, v) && session in s.sessionLocators then s.locators - s.sessionLocators[session]
                       else s.locators
  {
  }

  /** Observing a session again makes its last observation's references stale, whatever was or was not replaced. */
  lemma {:induction false} ObservedAgainIsStale(events: seq<Event>, observer: Client, user: Client, session: SessionId,
                                                ref: LocatorRef, a: Answer)
    requires var s := Run(events); observer !in s.tasks && user !in s.tasks && observer != user
    requires var s := Run(events); session in s.sessionLocators && ref in s.sessionLocators[session]
    ensures var s := Run(events);
      Run(events + [Observe(observer, session, false)] + [Use(user, session, ref)] + [Completes(user, a)]).log
      == s.log + [Forgot(s.sessionLocators[session])]
         + [Answered(session, LookUp(ref), a, Stale(UnknownReference))]
  {
    RunOneMore(events, Observe(observer, session, false));
    RunOneMore(events + [Observe(observer, session, false)], Use(user, session, ref));
    RunOneMore(events + [Observe(observer, session, false)] + [Use(user, session, ref)], Completes(user, a));
  }

  const ONE_NODE := Answer([TreeNode(1, 0, false)], 0, true, true, Element, true)

  const OBSERVED := [Attach(0)] + [Observe(0, 0, false)] + [Completes(0, ONE_NODE)] + [Completes(0, ONE_NODE)]

  lemma {:induction false} OneObservation()
    ensures Run(OBSERVED).tasks == map[]
    ensures Run(OBSERVED).sessionLocators == map[0 := {0}]
    ensures Run(OBSERVED).log == [Forgot({})] + [Issued(0, {0})]
  {
    assert [Attach(0)][..0] == [];
    RunOneMore([Attach(0)], Observe(0, 0, false));
    RunOneMore([Attach(0)] + [Observe(0, 0, false)], Completes(0, ONE_NODE));
    RunOneMore([Attach(0)] + [Observe(0, 0, false)] + [Completes(0, ONE_NODE)], Completes(0, ONE_NODE));
    assert RefsFrom(0, 1) == {0};
  }

  /** A session observed twice: the locator of the first observation is stale although no context was replaced. */
  lemma {:induction false} StaleWithNothingReplaced()
    ensures Run(OBSERVED + [Observe(0, 0, false)] + [Use(1, 0, 0)] + [Completes(1, ONE_NODE)]).log
      == [Forgot({})] + [Issued(0, {0})] + [Forgot({0})]
         + [Answered(0, LookUp(0), ONE_NODE, Stale(UnknownReference))]
  {
    OneObservation();
    ObservedAgainIsStale(OBSERVED, 0, 1, 0, 0, ONE_NODE);
  }
}
