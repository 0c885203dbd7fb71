# Models of browser control, automation recording and paired app transactions

This project models the protocols and algorithms a control host uses to drive browsers and cooperative apps, to keep
tamper-evident records of what it did, and to show a reader what a page holds. It proves what each of them is for. Each
module holds one mechanism; together they check with `dafny verify dfyconfig.toml`.

**Recording and replay.** `Text`, `JsonLexis`, `Json`, `JsonReader` and `JsonLaws` hold canonical JSON: the printer, a
reader for the printed text, and the laws that make equal text mean equal value. `Recording`, `RecordingLaws` and
`Recorder` hold the digest chain and its verification. `Artifacts`, `ArtifactStore` and `Collector` hold artifact bytes:
taken out of outputs, read in chunks, put back. `RecordReplay`, `ReplayLaws` and `Spaces` hold the recording space, the
replay space, and the theorem that the second refines the first. `Router` holds the linearization of callers. The
canonical printer of `scripts/actuation/actuationCanonical.js:120-128` is the same algorithm with another depth limit.

Digests are arbitrary functions. No result assumes that SHA-256 is injective: where a digest has to name one text, the
result is an alternative, and the other branch exhibits two digested texts with one digest.

**Paired app transactions.** `PairStore` is the store of paired generations with every client racing on it, one store
access at a time. `AppTarget` is the app behind its quiesce fence and the Machine, `SharedStore` the store as one
coordinator meets it, with any steps of the other clients in between, and `Coordinator` the transaction itself: capture,
restore with rollback, adopt. Every dispatch can fail before it is delivered or after it took effect; a failed import or
Machine restore can leave anything.

**Failures.** Where a result depends on which command failed, what becomes of every command is an input (`Faults`): it
works, it fails without effect, or it takes effect and its reply is lost. The results are then conditions on that input.

**Snapshots.** `DocumentOrder` is the explicit-stack listing of an accessibility tree, `FillTargets` the backward array
pass over a DOM snapshot, `Pictures` the merge of pictures into reading order.

**Stateful browser control.** `FrameSessions` is the forest of frame sessions, `InputGuard` the record of input that may be
down and its release, `InputSafety` the clicks, presses and drags that use it, from await to await, and the quarantine of
sessions, `Locators` the context epochs behind opaque locators, `Permission` the policy and its live revision.

**Bounded views.** `Paging` hands out an inventory page by page, `EventWindows` reads windows of numbered events,
`Redaction` decides which parts of an address are shown.

## Results where the code does less than it promises

- **Undoing a HEAD move to "no active pair".** A compare-and-swap with `next = null` writes a HEAD file holding null,
  which every later read refuses as corrupt (`scripts/executionMemory/fileExecutionMemoryStore.js:77-100`). An adopt that
  expected no active pair, moved HEAD and then failed to resume therefore does not restore HEAD: it can never be read or
  moved again. `Coordinator.ThereAndBackRestoresExactly` gives the exact condition (HEAD is restored if and only if the
  caller expected a pair), `PairStore.UnreadableExactlyAfterUndoToNull` shows that nothing else makes a HEAD unreadable,
  `PairStore.UnreadableStays` that nothing repairs it, and `PairStore.UndoneFirstAdoptLosesTheHead` is a whole run, from
  the empty store, that ends there. App state, outbox and Machine are restored in either case.
- **A fence that nobody gives back.** A resume is sent once and latched, so one that never arrives is not sent again, not
  even when a restore then rolls back cleanly and reports the ordinary error; a quiesce whose reply is lost leaves the
  fence held; and a restore whose rollback checkpoint cannot be saved gives up without a resume
  (`scripts/appSpace/appSpaceCoordinator.js:206-211`, `scripts/appSpace/appSpaceCoordinator.js:233-236`).
  `Coordinator.AppSpaceCoordinator.FenceLeft` says exactly when the fence is still held after a call, from what became of
  its quiesce, resume and save; every operation of the coordinator promises it.
- **`APP_SPACE_RESUME_FAILED` with outcome `notSent`.** A capture reports it when the pair *was* published and, for a
  checkpoint, HEAD *was* moved (`scripts/appSpace/appSpaceCoordinator.js:188-198`);
  `Coordinator.AppSpaceCoordinator.Capture` states so, and that with any other error this call moved no HEAD.
- **A drag whose destination cannot be released.** The `finally` block of a drag awaits `_releaseTarget`; when that throws
  (the release command failed and so did its audit) the error skips the safety release and the quarantine
  (`scripts/browserControl/browserAutomation.js:1563-1578`). A drag leaves something recorded down without quarantine if
  and only if `InputSafety.DragEscapes`: that release and that audit failed while the button or drag interception was
  recorded. `InputSafety.OneEscapingDrag` is one such drag; the button stays down for good.
- **A press or a click that its action does not wait for.** A failed press returns its safety release without awaiting it,
  and the `finally` behind it awaits the release of the target, which can throw first
  (`scripts/browserControl/browserAutomation.js:1624-1628`). A click that opens a dialog or starts a download runs beside
  the other thing its action waits for, and that can fail first
  (`scripts/browserControl/browserAutomation.js:1389-1417`, `scripts/browserControl/browserDownload.js:187-226`). The
  action then ends while an input may be down and the session is not quarantined, and another action may start.
  `InputSafety.PressLeftUnderway` and `InputSafety.ClickLeftUnderway` are the exact conditions,
  `InputSafety.OneUnsafePress` and `InputSafety.OneUnsafeClick` one input each. What was left goes on by itself, and
  quarantines the session or leaves the input up once it is answered (`InputSafety.BrowserAutomation.Finish`).
- **An output with a `__proto__` member.** Recording and replay copy objects by assigning their members, and assigning
  `__proto__` sets a prototype instead (`scripts/automationSpace/recordingSpace.js:52-68`,
  `scripts/automationSpace/replaySpace.js:28-29`). Page data can have such a member. A scalar there is lost without a word
  (`Artifacts.ProtoScalarVanishes`: `{"__proto__": 1}` comes back as `{}`), an object there makes the recording fail
  (`Artifacts.ProtoObjectUnprintable`). `Artifacts.SurvivesExactly` makes the absence of such members part of the exact
  condition under which an output comes back.
- **A locator reported stale although nothing was replaced.** The stale-locator code stands for more than a replaced
  context: a reference cleared by a second observation, a frame that was removed (which raises no epoch in the root's own
  process), an owner without a node, a separate frame's node without object, a text node that lost its element
  (`scripts/browserControl/browserAutomation.js:1876-1993`). `Locators.StaleExactly` is the exact condition,
  `Locators.StaleWithNothingReplaced` one run.

## Model

| member | source | states |
|---|---|---|
| JsonLaws.CanonicalReadsBack | scripts/automationSpace/automationRecording.js:44-52 | reading a canonical text gives back the value in normal form (keys sorted), with nothing left over |
| JsonLaws.EqualTextMeansSame | scripts/automationSpace/automationRecording.js:44-52 | equal canonical texts come only from values equal up to the order of object keys |
| JsonLaws.SameMeansEqualText | scripts/automationSpace/automationRecording.js:44-52 | values equal up to key order have the same text, or both have none |
| JsonLaws.SameHasOneNormal | scripts/automationSpace/automationRecording.js:49-50 | key insertion order never reaches the printed form |
| JsonLaws.NormalIsNormal | scripts/automationSpace/automationRecording.js:49-50 | the normal form is the same value and its own normal form |
| JsonLaws.PrintedWellFormed | scripts/automationSpace/automationRecording.js:44-52 | the text never holds an unpaired surrogate, so its UTF-8 form loses nothing |
| Json.CanonicalPrintsNormal | scripts/automationSpace/automationRecording.js:44-52 | a value has a text exactly when it is printable and within the depth limit, and the text is the plain print of its normal form |
| JsonReader.ReadsPrinted | scripts/automationSpace/automationRecording.js:44-52 | a printed value is read back exactly, whatever follows it |
| JsonLexis.EscapeReads | scripts/automationSpace/automationRecording.js:46-46 | a quoted string of any 16-bit units, lone surrogates included, is read back exactly |
| JsonLexis.IntTextReads | scripts/automationSpace/automationRecording.js:47-47 | an integer's text is read back as that integer |
| Members.SortedUnique | scripts/automationSpace/automationRecording.js:49-50 | one set of distinct keys has one sorted listing |
| RecordingLaws.DigestNamesEntry | scripts/automationSpace/automationRecording.js:66-76 | one entry digest names one step at one place after one digest, or two texts collide |
| RecordingLaws.SharedDigestSharesHistory | scripts/automationSpace/automationRecording.js:232-268 | chains sharing an entry digest stand at one position and agree on every entry up to it, or exhibit a collision |
| RecordingLaws.VerifiedDigestSharesHistory | scripts/automationSpace/automationRecording.js:206-290 | the same for two recordings that verify |
| RecordingLaws.FinalDigestFixesRecording | scripts/automationSpace/automationRecording.js:89-100 | verifying recordings with one final digest have the same id, provider, entries and artifact table, or collide |
| RecordingLaws.BuiltRecordingVerifies | scripts/automationSpace/automationRecording.js:149-204 | a recording built by create, append, put and seal passes verification exactly when its envelope, its size and its references are in order |
| RecordingLaws.SealIntact | scripts/automationSpace/automationRecording.js:197-204 | sealing a well-built recording makes everything verification checks except completeness hold |
| Recorder.RecordingState.Append | scripts/automationSpace/automationRecording.js:166-183 | an entry is chained onto the last digest, or nothing changes |
| Recorder.RecordingState.Put | scripts/automationSpace/automationRecording.js:185-195 | a valid artifact enters the table under its reference unless it contradicts the one there |
| Recorder.RecordingState.Seal | scripts/automationSpace/automationRecording.js:197-204 | completeness and the final digest are set from the present contents |
| Recorder.CheckBounds | scripts/automationSpace/automationRecording.js:27-42 | the stack loop accepts exactly the values within the depth and node limits |
| Recorder.CollectRefs | scripts/automationSpace/automationRecording.js:129-147 | the stack loop finds exactly the references the recursive definition names |
| Recorder.CheckEntries | scripts/automationSpace/automationRecording.js:232-268 | the loop accepts exactly the coherent, linked chains and gathers every reference |
| Recorder.Verify | scripts/automationSpace/automationRecording.js:206-290 | accepts exactly the recordings that verify: envelope, provider descriptor and policy, chain, artifacts, completeness, final digest |
| Artifacts.SurvivesExactly | scripts/automationSpace/replaySpace.js:22-39 | an output of any nesting survives stripping and rehydration exactly when no object in it has a `__proto__` member and every one gets back the bytes it carried |
| Artifacts.ProtoScalarVanishes | scripts/automationSpace/recordingSpace.js:52-68 | `{"__proto__": 1}` is recorded and comes back as an empty object |
| Artifacts.ProtoObjectUnprintable | scripts/automationSpace/recordingSpace.js:52-68 | a copy of an object with an object under `__proto__` has no canonical text, so it is not recorded |
| ArtifactStore.BrowserArtifactStore.Add | scripts/browserControl/browserArtifactStore.js:67-111 | an artifact is stored within the limits and counted, or refused with the store as reaped |
| ArtifactStore.BrowserArtifactStore.Read | scripts/browserControl/browserArtifactStore.js:113-142 | a read returns the slice of the stored bytes it names, or refuses |
| ArtifactStore.BrowserArtifactStore.Reap | scripts/browserControl/browserArtifactStore.js:154-160 | exactly the expired artifacts go, and the byte count stays the sum of what is stored |
| Collector.CollectCounts | scripts/automationSpace/recordingSpace.js:201-243 | the pending byte counter is the sum of the partial offsets after every accepted chunk, restarts at 0 included |
| Collector.CollectsRead | scripts/automationSpace/recordingSpace.js:201-243 | a store read fed to a collector standing at its offset is accepted and advances exactly that artifact |
| Collector.ReadsRebuild | scripts/automationSpace/recordingSpace.js:201-243 | reads of any legal sizes from offset 0 to the end rebuild exactly the stored bytes in the recording |
| ReplayLaws.ChunksComeBack | scripts/automationSpace/replaySpace.js:30-36 | and replay refills the answer of every single read along the way with exactly its own bytes |
| RecordReplay.ErrorsReplay | scripts/automationSpace/replaySpace.js:94-98 | a replayed error is canonically the recorded one |
| ReplayLaws.RunHolds | scripts/automationSpace/recordingSpace.js:136-169 | over any run of committed operations each adds exactly its own entry and the table holds exactly the named bytes |
| ReplayLaws.ReplayRefinesRun | scripts/automationSpace/replaySpace.js:55-99 | the i-th recorded operation fed at cursor i answers as the provider did and moves on by one; past the end the replay is exhausted |
| ReplayLaws.ReplayAllRefinesRun | scripts/automationSpace/replaySpace.js:55-99 | from any cursor, feeding the recorded operations answers all of them in order |
| ReplayLaws.AnsweredExactly | scripts/automationSpace/replaySpace.js:55-99 | a replay answers at a cursor if and only if it is asked what was recorded there (or an input whose digest collides with it), then answers as the provider did and moves on by one |
| ReplayLaws.AnyFeedFollowsRun | scripts/automationSpace/replaySpace.js:55-99 | whatever is fed, what is answered is the recorded run from the cursor on: in order, none skipped, none twice, and the cursor ends behind the last one answered |
| ReplayLaws.EntryReplaysExactly | scripts/automationSpace/replaySpace.js:80-99 | with nothing asked of the outputs, a recorded operation is answered as its provider answered if and only if every object of its output returns from the recorded table |
| Spaces.RecordingSpace.Execute | scripts/automationSpace/recordingSpace.js:129-169 | an answer passes only with its entry committed; after a failed commit everything is refused; an inspection gains the status of what is committed |
| Spaces.RecordingSpace.CollectChunk | scripts/automationSpace/recordingSpace.js:201-243 | the step-by-step collector does what its specification says, or refuses |
| Spaces.ReplaySpace.Invoke | scripts/automationSpace/replaySpace.js:55-112 | authorize then execute is one replay step, and a refused one leaves the cursor where it is; an inspection tells where the replay stands and moves nothing |
| Spaces.ReplaySpace.SetCursor | scripts/automationSpace/replaySpace.js:130-137 | a cursor is accepted exactly when it is in range and pinned by the right prefix digest |
| Spaces.ReplaySpace.Restore | scripts/automationSpace/replaySpace.js:118-124 | exactly this recording's checkpoints with a matching pin are accepted |
| Spaces.CheckpointAccepted | scripts/automationSpace/replaySpace.js:113-124 | a checkpoint taken anywhere in a verified recording is accepted again |
| Spaces.PinFixesHistory | scripts/automationSpace/replaySpace.js:130-137 | a prefix pin fixes the whole consumed history, or exhibits a collision |
| Router.EntryOrderIsCallOrder | scripts/automationSpace/automationSpace.js:72-79 | however callers overlap, entries stand in call order |
| Router.SnapshotIsWholePrefix | scripts/automationSpace/automationSpace.js:118-124 | a snapshot holds exactly the entries of the calls made before it, whole, and stays a prefix |
| PairStore.HeadNamesPublishedPair | scripts/appSpace/fileAppSpaceStore.js:43-59 | in every reachable store a readable HEAD names a published pair of its own app |
| PairStore.NothingRepoints | scripts/appSpace/fileAppSpaceStore.js:18-24 | objects and markers never change, HEAD moves are only appended |
| PairStore.LineageIsFiniteInOneApp | scripts/appSpace/appSpaceRegistry.js:28-39 | every pair's ancestry is finite, stored and within one app |
| PairStore.CheckpointReplacesItsParent | scripts/appSpace/appSpaceCoordinator.js:161-199 | no HEAD move is lost, and a checkpoint's pair has the HEAD it replaced as parent, under any race |
| PairStore.BranchMovesNoHead | scripts/appSpace/appSpaceCoordinator.js:51-55 | a branch moves no HEAD |
| PairStore.UnreadableExactlyAfterUndoToNull | scripts/executionMemory/fileExecutionMemoryStore.js:77-100 | a HEAD is unreadable exactly when an adopt that expected no pair undid its own move |
| PairStore.UnreadableStays | scripts/executionMemory/fileExecutionMemoryStore.js:77-100 | an unreadable HEAD takes no further swap |
| PairStore.UndoRestoresExactly | scripts/appSpace/appSpaceCoordinator.js:83-90 | moving HEAD and undoing it gives back the reading if and only if there was a pair before |
| PairStore.UndoneFirstAdoptLosesTheHead | scripts/appSpace/appSpaceCoordinator.js:83-90 | a run from the empty store: a pair is published, the first adopt of its app moves HEAD and is undone, and HEAD cannot be read any more |
| SharedStore.EveryStepIsReliable | scripts/appSpace/fileAppSpaceStore.js:18-59 | what a coordinator relies on between its accesses is kept by every step of every other client |
| SharedStore.Shared.CreateCandidate | scripts/appSpace/appSpaceRegistry.js:28-39 | a candidate is published under an unused id with a stored parent of its app, while others race |
| SharedStore.Shared.MoveActive | scripts/appSpace/fileAppSpaceStore.js:47-59 | exactly the asked HEAD move is made, or none |
| AppTarget.App.Quiesce | scripts/appSpace/appSpaceTarget.js:31-38 | the fence is taken at the expected revision, or flag and fence are as before |
| AppTarget.App.Import | scripts/appSpace/appSpaceTarget.js:48-53 | state changes only under the current fence and for this app, and then to anything |
| AppTarget.App.Resume | scripts/appSpace/appSpaceTarget.js:54-60 | the fence is given back, or nothing changes; a lost reply comes after the flag is cleared |
| Coordinator.AppSpaceCoordinator.CaptureApp | scripts/appSpace/appSpaceCoordinator.js:201-231 | a capture is the app's state under a fence taken for it; one that fails after taking the fence sends exactly one resume, and the fence is still held exactly if that never took effect |
| Coordinator.AppSpaceCoordinator.Rollback | scripts/appSpace/appSpaceCoordinator.js:250-257 | a rollback that returns has restored app, outbox and Machine; exactly one resume is sent, unless one was sent before, and its failure is what the rollback throws |
| Coordinator.AppSpaceCoordinator.RestorePair | scripts/appSpace/appSpaceCoordinator.js:233-278 | success puts app and Machine at the pair; any error but a failed rollback leaves them as before; exactly when the fence is left held |
| Coordinator.AppSpaceCoordinator.Restore | scripts/appSpace/appSpaceCoordinator.js:57-62 | the same, HEAD untouched, with a proof issued only on success |
| Coordinator.AppSpaceCoordinator.ConsumeRestoreProof | scripts/appSpace/appSpaceCoordinator.js:64-71 | a proof is spent by the first look, and accepted only for its own pair |
| Coordinator.AppSpaceCoordinator.Adopt | scripts/appSpace/appSpaceCoordinator.js:73-97 | all or nothing over app state, outbox, Machine and this call's HEAD move, at every failure point; exactly when the fence is left held |
| Coordinator.AppSpaceCoordinator.Capture | scripts/appSpace/appSpaceCoordinator.js:161-199 | a checkpoint or branch never changes app or Machine; what it publishes is what it captured; which error means published, and with every other error no HEAD moved |
| Coordinator.ThereAndBackRestoresExactly | scripts/appSpace/appSpaceCoordinator.js:83-90 | an undone HEAD move restored HEAD if and only if a pair had been active, whatever others did in between |
| DocumentOrder.OrderListsEachIdOnce | scripts/browserControl/browserAutomation.js:243-260 | on any graph every listed node was sent and every sent id is listed exactly once |
| DocumentOrder.ForestComesOutInPreorder | scripts/browserControl/browserAutomation.js:243-260 | a forest listed in any order comes out in recursive preorder |
| DocumentOrder.VisitConcat | scripts/browserControl/browserAutomation.js:246-256 | visiting two lists in turn is visiting their concatenation, which is why a stack may hold the rest |
| DocumentOrder.VisitRoot | scripts/browserControl/browserAutomation.js:246-256 | the explicit stack lists exactly what the recursion lists, and ends |
| DocumentOrder.ListInOrder | scripts/browserControl/browserAutomation.js:243-260 | the whole listing refines the recursive search on every input |
| FillTargets.BackwardPass | scripts/browserControl/browserAutomation.js:299-327 | one backward sweep computes text, length, element count and shadow of every node as the recursive definitions do |
| FillTargets.PassStep | scripts/browserControl/browserAutomation.js:312-326 | one index makes its own entry final and its link's entry take it in |
| FillTargets.ElementsCount | scripts/browserControl/browserAutomation.js:325-325 | the element count is the number of element descendants along links |
| FillTargets.ShadowMeans | scripts/browserControl/browserAutomation.js:322-322 | a node is marked exactly when it or a linked descendant carries the shadow-root attribute |
| FillTargets.ElementsFit | scripts/browserControl/browserAutomation.js:309-309 | no count reaches the snapshot's size, so 32 bits hold it |
| FillTargets.CollectTargets | scripts/browserControl/browserAutomation.js:328-345 | an editable node has a target exactly when its element is outside shadow trees; the last place wins; "complete" holds exactly when the text was not cut |
| Pictures.DomImages | scripts/browserControl/browserAutomation.js:266-288 | the unnamed images come in strictly ascending document order, each once |
| Pictures.DomOrderIsLast | scripts/browserControl/browserAutomation.js:292-295 | a backend id's index is that of the last node carrying it |
| Pictures.Merge | scripts/browserControl/browserAutomation.js:865-916 | both orders are kept, each picture comes out once, just before the first kept node that stands after it, else at the end |
| Pictures.PlacesFixListing | scripts/browserControl/browserAutomation.js:881-883 | that placement leaves exactly one listing |
| FrameSessions.NodeCdpTransport.RemoveChildren | scripts/browserControl/nodeCdpTransport.js:173-179 | the recursion ends and removes exactly the descendants |
| FrameSessions.NodeCdpTransport.StandsBelowItsRoot | scripts/browserControl/nodeCdpTransport.js:185-202 | every child stands below its own root and below no other |
| FrameSessions.NodeCdpTransport.AttachedToTarget | scripts/browserControl/nodeCdpTransport.js:185-203 | a frame session is added only below a known session, under that session's live root |
| FrameSessions.NodeCdpTransport.DetachedFromTarget | scripts/browserControl/nodeCdpTransport.js:204-220 | a child takes exactly its descendants along, a root exactly its children; no child outlives its root |
| FrameSessions.NodeCdpTransport.EndAttach | scripts/browserControl/nodeCdpTransport.js:43-58 | an attach keeps the root only if it is still there; otherwise root and children are gone |
| FrameSessions.NodeCdpTransport.Detach | scripts/browserControl/nodeCdpTransport.js:124-128 | after a detach exactly the children of other roots are left |
| FrameSessions.BelowChild | scripts/browserControl/nodeCdpTransport.js:173-179 | descending from a session means descending through exactly one of its children |
| InputGuard.InputStateGuard.SafetyRelease | scripts/browserControl/inputStateGuard.js:114-169 | every residual input is tried exactly once, keys by last first press, then buttons, then interception; exactly the acknowledged ones come off the record, and nothing is left if and only if all were acknowledged |
| InputGuard.InputStateGuard.ResidualInputs | scripts/browserControl/inputStateGuard.js:88-98 | the listing names each recorded input once, in its order |
| InputGuard.OrdersList | scripts/browserControl/inputStateGuard.js:140-158 | listing keys, buttons and interception in turn names each input exactly once |
| InputSafety.KeyNamesAgreeExactly | scripts/browserControl/browserAutomation.js:455-476 | the name a key is recorded under and reported up under agree for every key but the empty one |
| InputSafety.CleanUnlessRecorded | scripts/browserControl/browserAutomation.js:1369-1387 | a press and release that ends with nothing recorded left the input up, whatever happened to its commands |
| InputSafety.RepliesNeeded | scripts/browserControl/browserAutomation.js:1369-1387 | it takes two replies to end, or three when its press is acknowledged and its release is not |
| InputSafety.BrowserAutomation.Advance | scripts/browserControl/browserAutomation.js:1358-1387 | one reply to a press or release underway keeps every held input accounted for; a failed safety release quarantines |
| InputSafety.BrowserAutomation.Finish | scripts/browserControl/browserAutomation.js:1358-1387 | what is underway, once answered, ends quarantined exactly if its safety release failed |
| InputSafety.BrowserAutomation.ClickTarget | scripts/browserControl/browserAutomation.js:1369-1387 | a click succeeds, quarantines and leaves the page exactly as what became of its commands says |
| InputSafety.BrowserAutomation.RacedClick | scripts/browserControl/browserAutomation.js:1389-1417 | the same beside a dialog or a download; exactly when its action ends before it |
| InputSafety.BrowserAutomation.PressKey | scripts/browserControl/browserAutomation.js:1583-1629 | the same for a press; exactly when its action ends before its safety release is answered |
| InputSafety.BrowserAutomation.DragTarget | scripts/browserControl/browserAutomation.js:1493-1581 | a drag succeeds, quarantines or escapes quarantine exactly as what became of its commands and of one audit says |
| InputSafety.BrowserAutomation.RaiseInputFailure | scripts/browserControl/browserAutomation.js:1358-1367 | the session is quarantined exactly when some release is not acknowledged |
| InputSafety.BrowserAutomation.Execute | scripts/browserControl/browserAutomation.js:754-761 | over any run, a page holds an input only in quarantine, after an escaped drag, or while a stroke that pressed it is underway; which actions leave which; in quarantine no external effect is sent |
| InputSafety.OneEscapingDrag | scripts/browserControl/browserAutomation.js:1563-1578 | one drag that ends with the button down and no quarantine |
| InputSafety.OneUnsafePress | scripts/browserControl/browserAutomation.js:1624-1628 | one press that ends with its key down before the session is quarantined |
| InputSafety.OneUnsafeClick | scripts/browserControl/browserAutomation.js:1389-1417 | one raced click that ends with the button down before the session is quarantined |
| Paging.PagesRebuildTheList | scripts/automationSpace/semanticInventory.js:237-244 | the pages join to the list, none too long, and there are max(1, ceil(n / pageSize)) of them |
| Paging.SemanticInventory.Open | scripts/automationSpace/semanticInventory.js:134-181 | opening replaces the session's inventory, serves page one, and touches no other session |
| Paging.SemanticInventory.Continue | scripts/automationSpace/semanticInventory.js:183-207 | exactly the session's pending token serves the next page; it is spent whatever happens; others are refused and change nothing |
| Paging.SemanticInventory.SpentIsNeverAccepted | scripts/automationSpace/semanticInventory.js:188-194 | a spent token is accepted from no session |
| Paging.SemanticInventory.FollowAll | scripts/automationSpace/semanticInventory.js:134-274 | following every continuation, other sessions at work in between, yields exactly the pages at contiguous offsets |
| Paging.SemanticInventory.InvalidateSession | scripts/automationSpace/semanticInventory.js:209-216 | a session's inventory and token go, the others stay |
| Permission.RevisionStaysUnderStart | scripts/browserControl/mcpBrowserControl.js:269-345 | an applied revision stays under the start and its own risk bound, and tells exactly whether it widened |
| Permission.NeverAboveStart | scripts/browserControl/mcpBrowserControl.js:269-345 | the same over any run of revisions |
| Permission.NotWidenedAuthorizesNothingNew | scripts/browserControl/browserControlPolicy.js:183-231 | a revision reported as not widened authorizes no command refused before, moves to and from "*" included |
| Permission.CoveredCommands | scripts/browserControl/browserControlPolicy.js:169-231 | authorization is monotone in origins, methods and file roots |
| Permission.PermissionHost.Apply | scripts/browserControl/mcpBrowserControl.js:702-717 | configuration, policy, actions and raw methods swap together or not at all; one reported as not widened authorizes nothing new; once applied every surface is held exactly as the new policy says |
| Permission.PermissionHost.RevisePolicy | scripts/browserControl/browserControlPort.js:246-277 | afterwards closed targets are forgotten, an attached session is held exactly when its last place is outside the policy, and a target without one likewise |
| Locators.NoLocatorSurvivesReplacement | scripts/browserControl/browserAutomation.js:1876-1993 | a use gets an element only in the session its locator was issued in, only if nothing was replaced there since its tree was read, and only after every frame on the way was found as it was, with its owner |
| Locators.StaleExactly | scripts/browserControl/browserAutomation.js:1876-1993 | over every run, a use is told stale exactly when the reference is unknown in its session, the context was replaced, a frame moved, an owner is missing, a separate frame has no object or a text node no element; "unknown" and "replaced document" are said exactly when so; element, "missing" and "denied" exactly otherwise |
| Locators.KnownExactly | scripts/browserControl/browserAutomation.js:2029-2048 | a reference is known in a session exactly from its issue there until a clearing that names it |
| Locators.AnswerForgetsExactly | scripts/browserControl/browserAutomation.js:1876-1956 | an answer forgets its session's last observed locators exactly when it reports a replaced document, a replaced frame, or a changed owner in the root's own process |
| Locators.ObservedAgainIsStale | scripts/browserControl/browserAutomation.js:803-804 | observing a session again makes the references of its last observation stale, replaced context or not |
| Locators.StaleWithNothingReplaced | scripts/browserControl/browserAutomation.js:1876-1881 | one such run, in which nothing was replaced |
| Locators.EpochTells | scripts/browserControl/browserControlPort.js:599-616 | the epoch in a command's answer tells exactly whether the context was replaced since the tree was read |
| Locators.LocatorsAreStamped | scripts/browserControl/browserAutomation.js:936-950 | a locator carries the epoch its tree was read in |
| Locators.SameCountMeansUndisturbed | scripts/browserControl/browserControlPort.js:794-831 | epochs at two moments agree exactly when no context was replaced in between |
| EventWindows.EventBucket.Receive | scripts/browserControl/browserObservation.js:384-390 | a bucket holds a contiguous run of numbers just above what it dropped |
| EventWindows.EventBucket.Read | scripts/browserControl/browserObservation.js:396-416 | returned plus dropped is the window's size; `complete` holds exactly when everything in the window is returned |
| EventWindows.ChainedWindowsJoinToTheStream | scripts/browserControl/browserObservation.js:396-416 | chained complete windows join to the event stream without gap or repetition |
| EventWindows.CompleteMeansNothingDropped | scripts/browserControl/browserObservation.js:401-413 | complete means nothing dropped, and then the count is the window's size |
| Redaction.DecodeFully | scripts/browserControl/browserObservation.js:74-82 | the decoding loop is the recursive definition |
| Redaction.FullyDecodedMeans | scripts/browserControl/browserObservation.js:74-82 | the result is a fixed point within four decodings; there is none only when the value still changes |
| Redaction.RedactingTwiceIsRedactingOnce | scripts/browserControl/browserObservation.js:87-95 | redacting a query twice is redacting it once |
| Redaction.RedactionKeepsPairs | scripts/browserControl/browserObservation.js:87-95 | separators and number of pairs are kept, and each pair is redacted on its own |
| Redaction.QueryKeptExactly | scripts/browserControl/browserObservation.js:87-126 | a query is kept exactly when everything found in it at any nested level is clean |
| Redaction.ParameterKeptExactly | scripts/browserControl/browserObservation.js:106-113 | a value is kept exactly when its name is harmless and everything in it is clean |
| Redaction.AddressKeptExactly | scripts/browserControl/browserObservation.js:117-127 | a nested address is harmless exactly when everything in it is clean and it is not too deep |
| Redaction.SegmentKeptExactly | scripts/browserControl/browserObservation.js:143-154 | a path segment is kept exactly when everything in it is clean: no token, a clean address, or a plain option list |
| Redaction.OptionsKeptExactly | scripts/browserControl/browserObservation.js:149-162 | an option list is kept exactly when its head assigns nothing, is an image id with its size or lists plain options, and every parameter after it is digits, a plain image option or redacted already |
| Redaction.LinkPairKeptExactly | scripts/browserControl/browserObservation.js:99-101 | a link's pair is kept in one more case: digits only |

## Left out

- Locks, temporary files, fsync and I/O errors inside a store operation: a compare-and-swap either happens or throws
  without effect, an object write is whole.
- Artifact sidecar files of a recording: their bytes are modelled as inline bytes; `File` sources appear only as names.
- The error codes of recording verification: only whether it accepts. That a file's values have the types the model gives
  them (a code that is a string, a list of references) is taken as read.
- JavaScript coercions of artifact references that are not strings, and minus zero, which JSON prints as 0.
- Numbers other than integers are opaque self-delimiting tokens; their value is not interpreted.
- The app's own edits outside the fence, and two captures of one app at once: the app target's quiesce does not check that
  it is already quiesced, and coordinator calls on one app are taken one at a time.
- A restore compares state digests; the model compares the states, so a digest collision there is not modelled.
- Effects staged in the outbox and typed actuation (`stageEffect`, `finalizeEffect`, `actuateSession`).
- Which error the coordinator's memory capture and session lookup throw: both may only succeed or fail.
- Listener callbacks that call back into the transport, and frame sessions contributed by a request guard.
- Release timing: the release budget is the freedom of every release to fail. The awaits inside one drag are not
  interleaved with strokes that other actions left underway, and what an action sends before it records any input
  (preparing and rechecking a click's target) is not modelled for clicks.
- A `__proto__` member holding undefined or NaN is taken for one holding an object, and members a replayed object inherits
  from such a prototype are not modelled: a recording made by the recording space has no such objects.
- Overlapping opens of one inventory session, overlapping artifact puts, and replay without the router in front: the code
  relies on callers being serialized there. Permission revisions the program serializes itself
  (`scripts/browserControl/mcpBrowserControl.js:646-649`), so each is one step here,
  taken once the browser's targets are listed.
- Locators by description (role, text, selector), which carry no epoch from one call to the next, and a perception that
  reuses its last capture with locators still live. References are fresh, as the id generator promises.
- The digests and receipts attached to inventory pages, byte limits of an inventory, and reaping by inspection.
- The address parser, percent-decoding, the token, address and image-id patterns, and lower-casing are functions taken as
  given; putting the redacted path and query back together with the parser's setters, and the overall length limit, are
  not modelled. Redacting a path twice is not claimed to be redacting it once.
- The bounded map of request references and the normalization of individual events.
- Snapshot filtering by role and mode, live text, and everything JavaScript does inside the page.
- Choosing an actuator (`scripts/actuation/actuatorBroker.js`): it would only add easy members.
- Browser target listing, origin checks at attach, and command sending itself.
