/** Paired transactions over an app's logical state and a Machine checkpoint: capture under a quiesce fence, restore
    with rollback, and moves of the app's HEAD. Every dispatch may fail, before it is delivered or after it took effect.
    */
module Coordinator {
  import opened Options
  import opened Faults
  import opened PairStore
  import opened AppTarget
  import opened SharedStore

  /** The fence one capture took, and the latch that lets it be resumed once. */
  class FenceLatch {
    const fence: nat
    var resumed: bool

    constructor (fence: nat)
      ensures this.fence == fence && !resumed
    {
      this.fence := fence;
      resumed := false;
    }
  }

  datatype CapturedApp = CapturedApp(latch: FenceLatch, snapshot: Snapshot)

  datatype Restored = Restored(appRevision: nat, state: nat, checkpoint: nat)

  /** A restore under way: what to roll back to, and whether it has been finished or rolled back. */
  class Restoration {
    const rollbackApp: CapturedApp
    const rollbackIndex: nat
    var completed: bool
    var result: Restored

    constructor (rollbackApp: CapturedApp, rollbackIndex: nat)
      ensures this.rollbackApp == rollbackApp && this.rollbackIndex == rollbackIndex && !completed
    {
      this.rollbackApp := rollbackApp;
      this.rollbackIndex := rollbackIndex;
      completed := false;
      result := Restored(0, 0, 0);
    }
  }

  datatype Proof = Proof(pair: Digest, pairId: PairId, state: nat, checkpoint: nat)

  datatype Adopted = Adopted(pair: Pair, restored: Restored)

  datatype Kind = QuiesceCall | ResumeCall | SaveCall

  /** The page bridge: what becomes of the n-th dispatch of each kind the fence depends on, and how many there were. */
  class Bridge {
    const faults: (Kind, nat) -> Fault
    var quiesces: nat
    var resumes: nat
    var saves: nat

    constructor (faults: (Kind, nat) -> Fault)
      ensures this.faults == faults && quiesces == resumes == saves == 0
    {
      this.faults := faults;
      quiesces, resumes, saves := 0, 0, 0;
    }
  }

  /** The coordinator of one attached app. */
  class AppSpaceCoordinator {
    const app: App
    const machine: Machine
    const shared: Shared
    const bridge: Bridge
    const identity: AppId
    var proofs: map<nat, Proof>

    constructor (app: App, machine: Machine, shared: Shared, bridge: Bridge, identity: AppId)
      ensures this.app == app && this.machine == machine && this.shared == shared
      ensures this.bridge == bridge && this.identity == identity && proofs == map[]
    {
      this.app, this.machine, this.shared, this.bridge, this.identity := app, machine, shared, bridge, identity;
      proofs := map[];
    }

    /** What a transaction is about: the app's state and outbox, and what the Machine holds. */
    ghost function Logical(): (nat, seq<nat>, nat)
      reads app, machine
    {
      (app.state, app.outbox, machine.current)
    }

    /** The n-th dispatch of a kind fails. */
    predicate Fails(kind: Kind, n: nat) { !bridge.faults(kind, n).Fine? }

    ghost predicate FenceHeld(latch: FenceLatch)
      reads app, latch
    {
      !latch.resumed ==> app.Holds(latch.fence)
    }

    /** One more resume was dispatched, and the fence is still held exactly if that one never took effect. */
    ghost predicate ResumeTried(resumes: nat)
      reads app, bridge
    {
      bridge.resumes == resumes + 1 && app.quiesced == bridge.faults(ResumeCall, resumes).NoEffect?
    }

    /** What a call that began at these counts, with the fence held or not, leaves of it. Without a quiesce of its own
        the call leaves it alone. If its quiesce failed, the fence is held exactly if the quiesce took effect. Otherwise
        resume was dispatched exactly once, whatever else failed, except that a restore whose rollback checkpoint is not
        saved gives up and leaves the fence held. */
    ghost predicate FenceLeft(held: bool, quiesces: nat, resumes: nat, saves: nat, restoring: bool)
      reads app, bridge
    {
      if bridge.quiesces == quiesces then
        app.quiesced == held && bridge.resumes == resumes && bridge.saves == saves
      else
        && bridge.quiesces == quiesces + 1 && !held
        && if Fails(QuiesceCall, quiesces) then
             && app.quiesced == bridge.faults(QuiesceCall, quiesces).EffectOnly?
             && bridge.resumes == resumes && bridge.saves == saves
           else if restoring && bridge.saves > saves && Fails(SaveCall, saves) then
             app.quiesced && bridge.resumes == resumes
           else ResumeTried(resumes)
    }

    // ---- Dispatches through the page bridge. A lost request has no effect, a lost reply has all of it.

    method DispatchDescribe() returns (r: Result<Described>)
      ensures r.Threw? ==> Plain(r.error)
      ensures r.Done? ==> r.value == Described(app.identity, app.revision, app.quiesced)
    {
      r := app.Describe();
      var lost: bool := *;
      if lost { r := Threw(Undelivered); }
    }

    method DispatchQuiesce(revision: nat) returns (r: Result<Quiesced>)
      requires revision == app.revision
      modifies app`quiesced, app`fence, bridge`quiesces
      ensures r.Threw? ==> Plain(r.error)
      ensures bridge.quiesces == old(bridge.quiesces) + 1
      ensures r.Done? <==> !Fails(QuiesceCall, old(bridge.quiesces))
      ensures r.Done? ==> app.Holds(r.value.fence) && r.value.revision == app.revision
      ensures app.quiesced == (!bridge.faults(QuiesceCall, old(bridge.quiesces)).NoEffect? || old(app.quiesced))
    {
      var fault := bridge.faults(QuiesceCall, bridge.quiesces);
      bridge.quiesces := bridge.quiesces + 1;
      r := app.Quiesce(revision, fault.NoEffect?);
      if fault.EffectOnly? { r := Threw(Undelivered); }
    }

    method DispatchExport(fence: nat, revision: nat) returns (r: Result<Snapshot>)
      ensures r.Threw? ==> Plain(r.error)
      ensures r.Done? ==> app.Holds(fence) && r.value == Snapshot(app.identity, app.revision, app.state, app.outbox)
    {
      r := app.Export(fence, revision);
      var lost: bool := *;
      if lost { r := Threw(Undelivered); }
    }

    method DispatchImport(fence: nat, snapshot: Snapshot) returns (r: Result<nat>)
      modifies app`state, app`outbox, app`revision
      ensures r.Threw? ==> Plain(r.error)
      ensures r.Done? ==> r.value == app.revision && snapshot.app == app.identity
    {
      var undelivered: bool := *;
      if undelivered { return Threw(Undelivered); }
      r := app.Import(fence, snapshot);
      var lost: bool := *;
      if lost { r := Threw(Undelivered); }
    }

    method DispatchResume(fence: nat) returns (r: Result<nat>)
      requires app.Holds(fence)
      modifies app`quiesced, app`fence, bridge`resumes
      ensures r.Threw? ==> Plain(r.error)
      ensures r.Done? <==> !Fails(ResumeCall, old(bridge.resumes))
      ensures ResumeTried(old(bridge.resumes))
    {
      var fault := bridge.faults(ResumeCall, bridge.resumes);
      bridge.resumes := bridge.resumes + 1;
      r := app.Resume(fence, fault);
    }

    method DispatchSave() returns (r: Result<nat>)
      modifies machine`checkpoints, bridge`saves
      ensures r.Threw? ==> Plain(r.error)
      ensures bridge.saves == old(bridge.saves) + 1
      ensures r.Done? <==> !Fails(SaveCall, old(bridge.saves))
      ensures old(machine.checkpoints) <= machine.checkpoints
      ensures r.Done? ==> machine.At(r.value)
    {
      var fault := bridge.faults(SaveCall, bridge.saves);
      bridge.saves := bridge.saves + 1;
      r := machine.Save(fault);
    }

    method DispatchRestore(index: nat) returns (r: Result<nat>)
      modifies machine`current
      ensures r.Threw? ==> Plain(r.error)
      ensures r.Done? ==> machine.At(index)
    {
      var undelivered: bool := *;
      if undelivered { return Threw(Undelivered); }
      r := machine.Restore(index);
      var lost: bool := *;
      if lost { r := Threw(Undelivered); }
    }

    // ---- Capture under the fence.

    /** Gives the fence back, once: a second call does nothing, even when the first one's dispatch failed. */
    method Resume(latch: FenceLatch) returns (r: Result<()>)
      requires FenceHeld(latch)
      modifies app`quiesced, app`fence, latch, bridge`resumes
      ensures r.Threw? ==> Plain(r.error)
      ensures latch.resumed
      ensures old(latch.resumed) ==>
        r.Done? && bridge.resumes == old(bridge.resumes) && app.quiesced == old(app.quiesced)
      ensures !old(latch.resumed) ==>
        ResumeTried(old(bridge.resumes)) && (r.Done? <==> !Fails(ResumeCall, old(bridge.resumes)))
    {
      if latch.resumed { return Done(()); }
      latch.resumed := true;
      var sent := DispatchResume(latch.fence);
      r := if sent.Threw? then Threw(sent.error) else Done(());
    }

    /** Exports under the fence and checks that nothing moved across it. */
    method ExportFenced(fence: nat, revision: nat) returns (r: Result<Snapshot>)
      ensures r.Threw? ==> Plain(r.error)
      ensures r.Done? ==> r.value == Snapshot(identity, app.revision, app.state, app.outbox) && app.identity == identity
    {
      var raw := DispatchExport(fence, revision);
      if raw.Threw? { return raw; }
      var later := DispatchDescribe();
      if later.Threw? { return Threw(later.error); }
      if later.value.revision != raw.value.revision || !later.value.quiesced || raw.value.app != identity {
        return Threw(RevisionConflict);
      }
      var refused: bool := *;
      r := if refused then Threw(SnapshotInvalid) else raw;
    }

    /** Captures the app under a fence of its own. When that fails after the fence was taken, resume is dispatched
        exactly once before the error comes out. */
    method CaptureApp() returns (r: Result<CapturedApp>)
      modifies app`quiesced, app`fence, bridge`quiesces, bridge`resumes
      ensures r.Done? ==>
        && fresh(r.value.latch) && !r.value.latch.resumed && app.identity == identity
        && r.value.snapshot == Snapshot(identity, app.revision, app.state, app.outbox)
      ensures r.Done? ==>
        && !old(app.quiesced) && FenceHeld(r.value.latch)
        && bridge.quiesces == old(bridge.quiesces) + 1 && bridge.resumes == old(bridge.resumes)
        && !Fails(QuiesceCall, old(bridge.quiesces))
      ensures r.Threw? ==>
        FenceLeft(old(app.quiesced), old(bridge.quiesces), old(bridge.resumes), bridge.saves, false)
      ensures r.Threw? ==> Plain(r.error) || r.error == ResumeFailed(OutcomeUnknown)
      ensures r.Threw? ==>
        (r.error == ResumeFailed(OutcomeUnknown) <==>
         bridge.resumes > old(bridge.resumes) && Fails(ResumeCall, old(bridge.resumes)))
      ensures old(app.quiesced) ==> r.Threw? && app.quiesced && app.fence == old(app.fence)
    {
      var described := DispatchDescribe();
      if described.Threw? { return Threw(described.error); }
      if described.value.app != identity || described.value.quiesced { return Threw(StateInvalid); }
      var taken := DispatchQuiesce(described.value.revision);
      if taken.Threw? { return Threw(taken.error); }
      var latch := new FenceLatch(taken.value.fence);
      var exported := ExportFenced(latch.fence, taken.value.revision);
      if exported.Threw? {
        var resumed := Resume(latch);
        return Threw(if resumed.Threw? then ResumeFailed(OutcomeUnknown) else exported.error);
      }
      r := Done(CapturedApp(latch, exported.value));
    }

    // ---- Restore with rollback.

    /** Imports a snapshot, reads it back, compares, and restores the Machine checkpoint. */
    method RestoreSnapshot(latch: FenceLatch, snapshot: Snapshot, index: nat) returns (r: Result<Restored>)
      modifies app`state, app`outbox, app`revision, machine`current
      ensures r.Threw? ==> Plain(r.error)
      ensures r.Done? ==> app.state == snapshot.state && app.outbox == snapshot.outbox && machine.At(index)
      ensures r.Done? ==> r.value.state == snapshot.state && r.value.checkpoint == index
    {
      var imported := DispatchImport(latch.fence, snapshot);
      if imported.Threw? { return Threw(imported.error); }
      var raw := DispatchExport(latch.fence, imported.value);
      if raw.Threw? { return Threw(raw.error); }
      var refused: bool := *;
      if refused { return Threw(SnapshotInvalid); }
      if raw.value.state != snapshot.state || raw.value.outbox != snapshot.outbox { return Threw(RestoreMismatch); }
      var restored := DispatchRestore(index);
      if restored.Threw? { return Threw(restored.error); }
      r := Done(Restored(imported.value, raw.value.state, index));
    }

    /** Restores what was captured before, and resumes even when that failed; a failed resume is what is then thrown.
        The resume is dispatched exactly once unless the latch has let one through before. */
    method Rollback(p: Restoration) returns (r: Result<()>)
      requires FenceHeld(p.rollbackApp.latch)
      modifies app, machine`current, p, p.rollbackApp.latch, bridge`resumes
      ensures r.Done? && !old(p.completed) ==>
        && app.state == p.rollbackApp.snapshot.state && app.outbox == p.rollbackApp.snapshot.outbox
        && machine.At(p.rollbackIndex)
      ensures !old(p.completed) && !old(p.rollbackApp.latch.resumed) ==> ResumeTried(old(bridge.resumes))
      ensures !old(p.completed) && !old(p.rollbackApp.latch.resumed) && Fails(ResumeCall, old(bridge.resumes)) ==>
        r.Threw? && !p.completed
      ensures old(p.completed) || old(p.rollbackApp.latch.resumed) ==>
        bridge.resumes == old(bridge.resumes) && app.quiesced == old(app.quiesced)
    {
      if p.completed { return Done(()); }
      var restored := RestoreSnapshot(p.rollbackApp.latch, p.rollbackApp.snapshot, p.rollbackIndex);
      var resumed := Resume(p.rollbackApp.latch);
      if resumed.Threw? { return resumed; }
      p.completed := true;
      r := if restored.Threw? then Threw(restored.error) else Done(());
    }

    method Finish(p: Restoration) returns (r: Result<()>)
      requires FenceHeld(p.rollbackApp.latch) && !p.completed && !p.rollbackApp.latch.resumed
      modifies app`quiesced, app`fence, p, p.rollbackApp.latch, bridge`resumes
      ensures r.Threw? ==> Plain(r.error)
      ensures p.result == old(p.result) && p.rollbackApp.latch.resumed
      ensures ResumeTried(old(bridge.resumes)) && (r.Done? <==> !Fails(ResumeCall, old(bridge.resumes)))
      ensures p.completed == r.Done?
    {
      if p.completed { return Done(()); }
      r := Resume(p.rollbackApp.latch);
      if r.Done? { p.completed := true; }
    }

    /** The fence has been taken and the rollback checkpoint saved since these counts. */
    ghost predicate Fenced(held: bool, quiesces: nat, saves: nat)
      reads bridge
    {
      && !held && bridge.quiesces == quiesces + 1 && bridge.saves == saves + 1
      && !Fails(QuiesceCall, quiesces) && !Fails(SaveCall, saves)
    }

    /** Puts the app and the Machine at a pair. With `deferResume` the fence stays up for the caller to finish or to
        roll back. Any error but RollbackFailed leaves app and Machine as they were. */
    method RestorePair(pair: Pair, deferResume: bool) returns (r: Result<Restoration>)
      modifies app, machine, bridge
      ensures old(machine.checkpoints) <= machine.checkpoints
      ensures r.Done? ==>
        && pair.app == identity && app.state == pair.state && app.outbox == pair.outbox && machine.At(pair.checkpoint)
        && fresh(r.value) && fresh(r.value.rollbackApp.latch)
        && r.value.rollbackApp.snapshot.state == old(app.state)
        && r.value.rollbackApp.snapshot.outbox == old(app.outbox)
        && r.value.rollbackIndex < |machine.checkpoints|
        && machine.checkpoints[r.value.rollbackIndex] == old(machine.current)
        && r.value.result.state == pair.state && r.value.result.checkpoint == pair.checkpoint
        && r.value.completed == !deferResume
      ensures r.Threw? && r.error != RollbackFailed ==> Logical() == old(Logical())
      ensures r.Done? && deferResume ==>
        && !r.value.rollbackApp.latch.resumed && FenceHeld(r.value.rollbackApp.latch)
        && Fenced(old(app.quiesced), old(bridge.quiesces), old(bridge.saves)) && bridge.resumes == old(bridge.resumes)
      ensures r.Threw? || !deferResume ==>
        FenceLeft(old(app.quiesced), old(bridge.quiesces), old(bridge.resumes), old(bridge.saves), true)
      ensures r.Done? && !deferResume ==> !app.quiesced
    {
      if pair.app != identity { return Threw(IdentityMismatch); }
      var captured := CaptureApp();
      if captured.Threw? { return Threw(captured.error); }
      var saved := DispatchSave();
      if saved.Threw? { return Threw(saved.error); }
      var p := new Restoration(captured.value, saved.value);
      var snapshot := Snapshot(pair.app, 0, pair.state, pair.outbox);
      var restored := RestoreSnapshot(captured.value.latch, snapshot, pair.checkpoint);
      var failure: Option<Error> := None;
      if restored.Done? {
        p.result := restored.value;
        if !deferResume {
          var finished := Finish(p);
          if finished.Threw? { failure := Some(finished.error); }
        }
      } else {
        failure := Some(restored.error);
      }
      if failure.None? { return Done(p); }
      var rolledBack := Rollback(p);
      r := Threw(if rolledBack.Threw? then RollbackFailed else failure.value);
    }

    /** Restores a pair and hands out a proof of it under a new reference. HEAD does not move. */
    method Restore(id: PairId, restoreRef: nat) returns (r: Result<Pair>)
      requires shared.Valid()
      modifies app, machine, bridge, shared`store, shared`others, this`proofs
      ensures shared.Valid() && Grows(old(shared.store), shared.store)
      ensures old(machine.checkpoints) <= machine.checkpoints
      ensures r.Done? ==>
        && shared.Stored(r.value) && r.value.id == id && r.value.app == identity
        && app.state == r.value.state && app.outbox == r.value.outbox && machine.At(r.value.checkpoint)
        && proofs == old(proofs)[restoreRef := Proof(shared.hash(r.value), id, app.state, r.value.checkpoint)]
        && !app.quiesced
      ensures r.Threw? ==> proofs == old(proofs)
      ensures r.Threw? && r.error != RollbackFailed ==> Logical() == old(Logical())
      ensures FenceLeft(old(app.quiesced), old(bridge.quiesces), old(bridge.resumes), old(bridge.saves), true)
    {
      var found := shared.OpenPair(id);
      if found.Threw? { return found; }
      var pair := found.value;
      var restored := RestorePair(pair, false);
      if restored.Threw? { return Threw(restored.error); }
      var result := restored.value.result;
      proofs := proofs[restoreRef := Proof(shared.hash(pair), pair.id, result.state, result.checkpoint)];
      r := found;
    }

    /** A proof is spent by the first look at it, whether or not it names the pair asked about. */
    method ConsumeRestoreProof(restoreRef: nat, pair: Digest) returns (r: Result<Proof>)
      modifies this`proofs
      ensures r.Done? <==> restoreRef in old(proofs) && old(proofs)[restoreRef].pair == pair
      ensures r.Done? ==> r.value == old(proofs)[restoreRef]
      ensures r.Threw? ==> r.error == ProofInvalid
      ensures proofs == old(proofs) - {restoreRef}
    {
      var proof := if restoreRef in proofs then Some(proofs[restoreRef]) else None;
      proofs := proofs - {restoreRef};
      if proof.None? || proof.value.pair != pair { return Threw(ProofInvalid); }
      r := Done(proof.value);
    }

    /** The HEAD moves one adopt of `pair` may leave behind: none, one there, or one there and one back. */
    ghost predicate MovedThere(before: seq<nat>, expected: Option<Digest>, pair: Pair)
      reads shared
    {
      shared.OwnEnds(before, [Move(identity, expected, Some(shared.hash(pair)), ByAdopt)])
    }

    ghost predicate MovedThereAndBack(before: seq<nat>, expected: Option<Digest>, pair: Pair)
      reads shared
    {
      shared.OwnEnds(before, [Move(identity, expected, Some(shared.hash(pair)), ByAdopt),
                              Move(identity, Some(shared.hash(pair)), expected, ByUndo)])
    }

    /** Undoes the half-done adopt: the app and the Machine first, then the HEAD if it was moved. */
    method UndoAdopt(p: Restoration, pair: Pair, expected: Option<Digest>, headMoved: bool, ghost before: seq<nat>)
      returns (r: Result<()>)
      requires shared.Valid() && !p.completed && FenceHeld(p.rollbackApp.latch) && pair.app == identity
      requires if headMoved then MovedThere(before, expected, pair) else shared.own == before
      requires headMoved && expected.Some? ==> Published(shared.store, expected.value, identity)
      modifies app, machine`current, shared, p, p.rollbackApp.latch, bridge`resumes
      ensures shared.Valid() && Grows(old(shared.store), shared.store)
      ensures r.Done? ==>
        && app.state == p.rollbackApp.snapshot.state && app.outbox == p.rollbackApp.snapshot.outbox
        && machine.At(p.rollbackIndex)
        && (if headMoved then MovedThereAndBack(before, expected, pair) else shared.own == before)
        && (headMoved && expected.None? ==> ReadHead(shared.store, identity).Unreadable?)
      ensures r.Threw? ==> if headMoved then MovedThere(before, expected, pair) else shared.own == before
      ensures if old(p.rollbackApp.latch.resumed)
              then bridge.resumes == old(bridge.resumes) && app.quiesced == old(app.quiesced)
              else ResumeTried(old(bridge.resumes))
    {
      r := Rollback(p);
      if r.Done? && headMoved {
        ghost var own, moves := shared.own, shared.store.moves;
        ghost var there, back := Move(identity, expected, Some(shared.hash(pair)), ByAdopt),
                                 Move(identity, Some(shared.hash(pair)), expected, ByUndo);
        assert MovedThere(before, expected, pair);
        assert [there][0] == there && own[|before| + 0] < |moves| && moves[own[|before|]] == there;
        r := shared.MoveActive(identity, Some(shared.hash(pair)), expected, ByUndo);
        assert moves <= shared.store.moves;
        if r.Done? {
          assert |shared.own| == |own| + 1 && shared.own[..|own|] == own;
          assert shared.own[..|before|] == own[..|before|] && shared.own[|before|] == own[|before|];
          assert shared.OwnEnds(own, [back]) && [back][0] == back;
          assert shared.store.moves[shared.own[|own| + 0]] == back;
        }
      }
    }

    /** The part of adopt that may have to be undone: HEAD is moved, then the fence is given back. */
    method MoveAndFinish(p: Restoration, pair: Pair, expected: Option<Digest>)
      returns (headMoved: bool, failure: Option<Error>)
      requires shared.Valid() && shared.Stored(pair) && pair.app == identity
      requires !p.completed && !p.rollbackApp.latch.resumed && FenceHeld(p.rollbackApp.latch)
      modifies app`quiesced, app`fence, shared, p, p.rollbackApp.latch, bridge`resumes
      ensures shared.Valid() && Grows(old(shared.store), shared.store) && p.result == old(p.result)
      ensures if headMoved then MovedThere(old(shared.own), expected, pair) else shared.own == old(shared.own)
      ensures headMoved && expected.Some? ==> Published(shared.store, expected.value, identity)
      ensures failure.None? ==> headMoved && !app.quiesced && p.rollbackApp.latch.resumed
      ensures failure.Some? ==> !p.completed && Plain(failure.value) && FenceHeld(p.rollbackApp.latch)
      ensures if p.rollbackApp.latch.resumed then ResumeTried(old(bridge.resumes))
              else bridge.resumes == old(bridge.resumes)
    {
      var reopened := shared.OpenPair(pair.id);
      if reopened.Threw? { return false, Some(reopened.error); }
      var moved := shared.MoveActive(reopened.value.app, expected, Some(shared.hash(reopened.value)), ByAdopt);
      if moved.Threw? { return false, Some(moved.error); }
      var finished := Finish(p);
      return true, if finished.Threw? then Some(finished.error) else None;
    }

    /** The rest of adopt once app and Machine are at the pair: HEAD, the fence, and the way back when either fails. */
    method AdoptRestored(p: Restoration, pair: Pair, expected: Option<Digest>) returns (r: Result<Adopted>)
      requires shared.Valid() && shared.Stored(pair) && pair.app == identity
      requires !p.completed && !p.rollbackApp.latch.resumed && FenceHeld(p.rollbackApp.latch)
      modifies app, machine`current, shared, p, p.rollbackApp.latch, bridge`resumes
      ensures shared.Valid() && Grows(old(shared.store), shared.store)
      ensures r.Done? ==>
        && r.value.pair == pair && Logical() == old(Logical()) && !app.quiesced
        && MovedThere(old(shared.own), expected, pair)
      ensures r.Threw? && r.error != RollbackFailed ==>
        && app.state == p.rollbackApp.snapshot.state && app.outbox == p.rollbackApp.snapshot.outbox
        && machine.At(p.rollbackIndex)
        && (shared.own == old(shared.own) || MovedThereAndBack(old(shared.own), expected, pair))
        && (shared.own != old(shared.own) && expected.None? ==> ReadHead(shared.store, identity).Unreadable?)
      ensures r.Threw? && r.error == RollbackFailed ==>
        shared.own == old(shared.own) || MovedThere(old(shared.own), expected, pair)
      ensures ResumeTried(old(bridge.resumes))
    {
      var headMoved, failure := MoveAndFinish(p, pair, expected);
      if failure.None? { return Done(Adopted(pair, p.result)); }
      var undone := UndoAdopt(p, pair, expected, headMoved, old(shared.own));
      r := Threw(if undone.Threw? then RollbackFailed else failure.value);
    }

    /** Adopt once its pair has been opened. */
    method AdoptFound(pair: Pair, expected: Option<Digest>) returns (r: Result<Adopted>)
      requires shared.Valid() && shared.Stored(pair)
      modifies app, machine, shared, bridge
      ensures shared.Valid() && Grows(old(shared.store), shared.store)
      ensures old(machine.checkpoints) <= machine.checkpoints
      ensures r.Done? ==>
        && r.value.pair == pair && pair.app == identity
        && app.state == pair.state && app.outbox == pair.outbox && machine.At(pair.checkpoint)
        && MovedThere(old(shared.own), expected, pair) && !app.quiesced
      ensures r.Threw? && r.error != RollbackFailed ==>
        && Logical() == old(Logical())
        && (shared.own == old(shared.own) || MovedThereAndBack(old(shared.own), expected, pair))
        && (shared.own != old(shared.own) && expected.None? ==> ReadHead(shared.store, identity).Unreadable?)
      ensures r.Threw? && r.error == RollbackFailed ==>
        shared.own == old(shared.own) || MovedThere(old(shared.own), expected, pair)
      ensures FenceLeft(old(app.quiesced), old(bridge.quiesces), old(bridge.resumes), old(bridge.saves), true)
    {
      var restored := RestorePair(pair, true);
      if restored.Threw? { return Threw(restored.error); }
      r := AdoptRestored(restored.value, pair, expected);
    }

    /** Adopts a pair: app, Machine and HEAD together. Success moves all three; any error but RollbackFailed leaves app
        and Machine as they were and this call's HEAD move, if it was made, undone. */
    method Adopt(id: PairId, expected: Option<Digest>) returns (r: Result<Adopted>, ghost pair: Pair)
      requires shared.Valid()
      modifies app, machine, shared, bridge
      ensures shared.Valid() && Grows(old(shared.store), shared.store)
      ensures old(machine.checkpoints) <= machine.checkpoints
      ensures r.Done? ==>
        && r.value.pair == pair && shared.Stored(pair) && pair.id == id && pair.app == identity
        && app.state == pair.state && app.outbox == pair.outbox && machine.At(pair.checkpoint)
        && MovedThere(old(shared.own), expected, pair)
        && !app.quiesced
      ensures r.Threw? && r.error != RollbackFailed ==> Logical() == old(Logical())
      ensures r.Threw? && r.error != RollbackFailed ==>
        shared.own == old(shared.own) || MovedThereAndBack(old(shared.own), expected, pair)
      ensures r.Threw? && r.error != RollbackFailed && shared.own != old(shared.own) && expected.None? ==>
        ReadHead(shared.store, identity).Unreadable?
      ensures r.Threw? && r.error == RollbackFailed ==>
        shared.own == old(shared.own) || MovedThere(old(shared.own), expected, pair)
      ensures FenceLeft(old(app.quiesced), old(bridge.quiesces), old(bridge.resumes), old(bridge.saves), true)
    {
      var found := shared.OpenPair(id);
      pair := Pair(id, None, identity, 0, [], 0);
      if found.Threw? { return Threw(found.error), pair; }
      pair := found.value;
      r := AdoptFound(found.value, expected);
    }

    /** Captures app and Machine as a new pair; a checkpoint (`activate`) also makes it the app's HEAD. The app, its
        outbox and the Machine are never changed. */
    method Capture(id: PairId, expected: Option<Digest>, branchParent: Option<Digest>, activate: bool,
                   sessionUsable: bool)
      returns (r: Result<Pair>, ghost pair: Pair)
      requires shared.Valid() && (activate ==> branchParent.None?)
      modifies app`quiesced, app`fence, machine`checkpoints, shared, bridge
      ensures shared.Valid() && Grows(old(shared.store), shared.store)
      ensures old(machine.checkpoints) <= machine.checkpoints
      ensures r.Done? || r == Threw(ResumeFailed(NotSent)) ==>
        && (r.Done? ==> r.value == pair)
        && shared.Stored(pair) && pair.id == id && pair.app == identity
        && pair.state == app.state && pair.outbox == app.outbox && machine.At(pair.checkpoint)
        && pair.parent == expected && (!activate ==> branchParent == expected)
        && CaptureMoved(old(shared.own), expected, pair, activate)
      ensures r.Threw? && r != Threw(ResumeFailed(NotSent)) ==> shared.own == old(shared.own)
      ensures r.Done? ==> !app.quiesced
      ensures FenceLeft(old(app.quiesced), old(bridge.quiesces), old(bridge.resumes), old(bridge.saves), false)
      ensures bridge.resumes > old(bridge.resumes) ==>
        (r.Threw? && r.error.ResumeFailed? <==> Fails(ResumeCall, old(bridge.resumes)))
    {
      pair := Pair(id, None, identity, 0, [], 0);
      if !sessionUsable { return Threw(SessionConflict), pair; }
      var active := shared.Active(identity);
      if active.Threw? { return Threw(active.error), pair; }
      if active.value != expected { return Threw(HeadConflict), pair; }
      var parent := if activate then expected else branchParent;
      if !activate && parent != expected { return Threw(HeadConflict), pair; }
      r, pair := CaptureUnder(id, parent, expected, activate);
    }

    /** Capture once its preconditions have been checked. */
    method CaptureUnder(id: PairId, parent: Option<Digest>, expected: Option<Digest>, activate: bool)
      returns (r: Result<Pair>, ghost pair: Pair)
      requires shared.Valid() && parent == expected
      modifies app`quiesced, app`fence, machine`checkpoints, shared, bridge
      ensures shared.Valid() && Grows(old(shared.store), shared.store)
      ensures old(machine.checkpoints) <= machine.checkpoints
      ensures r.Done? || r == Threw(ResumeFailed(NotSent)) ==>
        && (r.Done? ==> r.value == pair && !app.quiesced)
        && shared.Stored(pair) && machine.At(pair.checkpoint)
        && pair == Pair(id, parent, identity, app.state, app.outbox, pair.checkpoint)
        && CaptureMoved(old(shared.own), expected, pair, activate)
      ensures r.Threw? && r != Threw(ResumeFailed(NotSent)) ==> shared.own == old(shared.own)
      ensures FenceLeft(old(app.quiesced), old(bridge.quiesces), old(bridge.resumes), old(bridge.saves), false)
      ensures bridge.resumes > old(bridge.resumes) ==>
        (r.Threw? && r.error.ResumeFailed? <==> Fails(ResumeCall, old(bridge.resumes)))
    {
      pair := Pair(id, None, identity, 0, [], 0);
      var captured := CaptureApp();
      if captured.Threw? { return Threw(captured.error), pair; }
      var stored := StoreCapture(id, parent, captured.value.snapshot, expected, activate);
      if stored.Done? { pair := stored.value; }
      var resumed := Resume(captured.value.latch);
      if resumed.Threw? { return Threw(ResumeFailed(if stored.Threw? then OutcomeUnknown else NotSent)), pair; }
      r := stored;
    }

    ghost predicate CaptureMoved(before: seq<nat>, expected: Option<Digest>, pair: Pair, activate: bool)
      reads shared
    {
      if activate then shared.OwnEnds(before, [Move(identity, expected, Some(shared.hash(pair)), ByCheckpoint)])
      else shared.own == before
    }

    /** Saves the Machine checkpoint, publishes the pair and, for a checkpoint, moves HEAD. */
    method StoreCapture(id: PairId, parent: Option<Digest>, snapshot: Snapshot, expected: Option<Digest>,
                        activate: bool)
      returns (r: Result<Pair>)
      requires shared.Valid() && snapshot.app == identity && (activate ==> parent == expected)
      modifies machine`checkpoints, shared, bridge`saves
      ensures r.Threw? ==> Plain(r.error)
      ensures shared.Valid() && Grows(old(shared.store), shared.store)
      ensures old(machine.checkpoints) <= machine.checkpoints
      ensures r.Done? ==>
        && shared.Stored(r.value) && machine.At(r.value.checkpoint)
        && r.value == Pair(id, parent, identity, snapshot.state, snapshot.outbox, r.value.checkpoint)
        && CaptureMoved(old(shared.own), expected, r.value, activate)
      ensures r.Threw? ==> shared.own == old(shared.own)
    {
      var saved := DispatchSave();
      if saved.Threw? { return Threw(saved.error); }
      var memoryFails: bool := *;
      if memoryFails { return Threw(MachineThrew); }
      var pair := Pair(id, parent, snapshot.app, snapshot.state, snapshot.outbox, saved.value);
      r := shared.CreateCandidate(pair);
      if r.Done? && activate {
        var moved := shared.MoveActive(identity, expected, Some(shared.hash(pair)), ByCheckpoint);
        if moved.Threw? { r := Threw(moved.error); }
      }
    }
  }

  /** One undo after one move, whatever other clients did in between: the undo puts back what the move had replaced
      exactly when that was a pair; with no pair before, the HEAD cannot be read from then on. */
  lemma {:induction false} ThereAndBackRestoresExactly(s: Store, j: nat, k: nat)
    requires MovesHold(s) && j < k < |s.moves|
    requires s.moves[k].app == s.moves[j].app && s.moves[k].to == s.moves[j].from && s.moves[k].from == s.moves[j].to
    ensures After(s.moves[..k + 1], s.moves[j].app) == After(s.moves[..j], s.moves[j].app) <==> s.moves[j].from.Some?
    ensures s.moves[j].from.None? ==> ReadHead(s, s.moves[j].app).Unreadable?
  {
    var app := s.moves[j].app;
    assert MoveHolds(s, j) && MoveHolds(s, k);
    assert s.moves[..k + 1][..k] == s.moves[..k];
    if s.moves[j].from.None? {
      assert s.moves[k].to.None?;
      assert s.moves[..|s.moves|] == s.moves && ReadHead(s, app) == After(s.moves, app);
      UnreadableForGood(s, k, |s.moves|);
    }
  }

  /** A move to null is the last move of its app. */
  lemma {:induction false} UnreadableForGood(s: Store, k: nat, n: nat)
    requires MovesHold(s) && k < n <= |s.moves| && s.moves[k].to.None?
    ensures After(s.moves[..n], s.moves[k].app).Unreadable?
    decreases n
  {
    assert s.moves[..n][..n - 1] == s.moves[..n - 1] && s.moves[..n][n - 1] == s.moves[n - 1];
    if k < n - 1 {
      UnreadableForGood(s, k, n - 1);
      assert MoveHolds(s, n - 1);
    }
  }
}
