/** The app side of a paired transaction: the registered adapter behind its quiesce fence, and the Machine with its
    checkpoints. Every adapter or Machine call may throw; a failed import or Machine restore may leave anything. */
module AppTarget {
  import opened Options
  import opened Faults
  import opened PairStore

  datatype Outcome = NotSent | OutcomeUnknown

  datatype Error =
    | AdapterThrew | FenceInvalid | RevisionConflict | IdentityMismatch | Undelivered | StateInvalid | SnapshotInvalid
    | RestoreMismatch | HeadConflict | PairNotFound | PairExists | SessionConflict | MachineThrew | StoreFailed
    | ProofInvalid | ResumeFailed(outcome: Outcome) | RollbackFailed

  /** What a dispatch or a store access can throw, as opposed to the coordinator itself. */
  predicate Plain(e: Error) { !e.ResumeFailed? && !e.RollbackFailed? }

  datatype Result<T> = Done(value: T) | Threw(error: Error)

  datatype Snapshot = Snapshot(app: AppId, revision: nat, state: nat, outbox: seq<nat>)

  datatype Described = Described(app: AppId, revision: nat, quiesced: bool)

  datatype Quiesced = Quiesced(revision: nat, fence: nat)

  /** The cooperative app: its logical state and outbox, and the fence the last quiesce gave out. */
  class App {
    const identity: AppId
    var state: nat
    var outbox: seq<nat>
    var revision: nat
    var quiesced: bool
    var fence: Option<nat>

    constructor (identity: AppId, state: nat, outbox: seq<nat>)
      ensures this.identity == identity && this.state == state && this.outbox == outbox
      ensures !quiesced && fence == None
    {
      this.identity := identity;
      this.state := state;
      this.outbox := outbox;
      this.revision := 0;
      this.quiesced := false;
      this.fence := None;
    }

    predicate Holds(held: nat)
      reads this
    {
      quiesced && fence == Some(held)
    }

    method Describe() returns (r: Result<Described>)
      ensures r.Threw? ==> Plain(r.error)
      ensures r.Done? ==> r.value == Described(identity, revision, quiesced)
    {
      var throws: bool := *;
      r := if throws then Threw(AdapterThrew) else Done(Described(identity, revision, quiesced));
    }

    /** Takes the fence; on any throw the fence and the flag are as before. */
    method Quiesce(expectedRevision: nat, throws: bool) returns (r: Result<Quiesced>)
      modifies this`quiesced, this`fence
      ensures r.Threw? ==> Plain(r.error)
      ensures r.Done? <==> revision == expectedRevision && !throws
      ensures r.Done? ==> revision == r.value.revision && Holds(r.value.fence)
      ensures r.Threw? ==> quiesced == old(quiesced) && fence == old(fence)
    {
      if expectedRevision != revision { return Threw(RevisionConflict); }
      if throws { return Threw(AdapterThrew); }
      var given: nat := *;
      quiesced := true;
      fence := Some(given);
      r := Done(Quiesced(expectedRevision, given));
    }

    method Export(held: nat, expectedRevision: nat) returns (r: Result<Snapshot>)
      ensures r.Threw? ==> Plain(r.error)
      ensures r.Done? ==> Holds(held) && r.value == Snapshot(identity, revision, state, outbox)
    {
      if !Holds(held) { return Threw(FenceInvalid); }
      if expectedRevision != revision { return Threw(RevisionConflict); }
      var throws: bool := *;
      r := if throws then Threw(AdapterThrew) else Done(Snapshot(identity, revision, state, outbox));
    }

    /** Only under the current fence and only for this app may the state change, and then to anything: what the adapter
        made of the snapshot is for the caller to check. */
    method Import(held: nat, snapshot: Snapshot) returns (r: Result<nat>)
      modifies this`state, this`outbox, this`revision
      ensures r.Threw? ==> Plain(r.error)
      ensures r.Done? ==> old(Holds(held)) && snapshot.app == identity && r.value == revision
      ensures !old(Holds(held)) || snapshot.app != identity ==>
        r.Threw? && state == old(state) && outbox == old(outbox) && revision == old(revision)
    {
      if !Holds(held) { return Threw(FenceInvalid); }
      if snapshot.app != identity { return Threw(IdentityMismatch); }
      state := *;
      outbox := *;
      revision := *;
      var throws: bool := *;
      r := if throws then Threw(AdapterThrew) else Done(revision);
    }

    /** Gives the fence back. The reply can still be lost to a throwing revision after the flag has been cleared. */
    method Resume(held: nat, fault: Fault) returns (r: Result<nat>)
      modifies this`quiesced, this`fence
      ensures r.Threw? ==> Plain(r.error)
      ensures r.Done? <==> old(Holds(held)) && fault.Fine?
      ensures if old(Holds(held)) && !fault.NoEffect? then !quiesced && fence == None
              else quiesced == old(quiesced) && fence == old(fence)
    {
      if !Holds(held) { return Threw(FenceInvalid); }
      if fault.NoEffect? { return Threw(AdapterThrew); }
      quiesced := false;
      fence := None;
      r := if fault.EffectOnly? then Threw(AdapterThrew) else Done(revision);
    }
  }

  /** The Machine: what it holds now and the checkpoints it can go back to. */
  class Machine {
    var current: nat
    var checkpoints: seq<nat>

    constructor (current: nat)
      ensures this.current == current && checkpoints == []
    {
      this.current := current;
      checkpoints := [];
    }

    ghost predicate At(index: nat)
      reads this
    {
      index < |checkpoints| && current == checkpoints[index]
    }

    method Save(fault: Fault) returns (r: Result<nat>)
      modifies this`checkpoints
      ensures r.Threw? ==> Plain(r.error)
      ensures r.Done? <==> fault.Fine?
      ensures checkpoints == if fault.NoEffect? then old(checkpoints) else old(checkpoints) + [current]
      ensures r.Done? ==> r.value == |old(checkpoints)| && At(r.value)
    {
      if fault.NoEffect? { return Threw(MachineThrew); }
      checkpoints := checkpoints + [current];
      r := if fault.EffectOnly? then Threw(MachineThrew) else Done(|checkpoints| - 1);
    }

    /** Restores a checkpoint; a throwing restore may leave the Machine anywhere. */
    method Restore(index: nat) returns (r: Result<nat>)
      modifies this`current
      ensures r.Threw? ==> Plain(r.error)
      ensures r.Done? ==> r.value == index && At(index)
    {
      if index >= |checkpoints| { return Threw(MachineThrew); }
      var throws: bool := *;
      if throws {
        current := *;
        return Threw(MachineThrew);
      }
      current := checkpoints[index];
      r := Done(index);
    }
  }
}
