/** The live runtime: its state, its epoch, and the two identities that change with it.
    Source: src/agent_containment/runtime.py. */
module RuntimeModel {
  import opened Wrappers

  /** A fresh `object()` is a number that has never been drawn before. */
  type Id = nat

  datatype RuntimeState = Active | Paused | Halted | Contained

  datatype Lease = Lease(agentId: string, epoch: int, proof: Option<Id>)

  datatype RuntimeError =
    | NegativeEpoch
    | EpochMismatch
    | CannotRestore
    | WrongCapability
    | NotContained

  /** What the runtime's lock protects. */
  datatype Rt = Rt(agentId: string, state: RuntimeState, epoch: nat, proof: Id, capability: Id) {

    predicate CanExecute() {
      state == Active
    }

    function Halt(drawn: Id): Rt {
      this.(state := Halted, epoch := epoch + 1, proof := drawn)
    }

    function Contain(drawn: Id): Rt {
      this.(state := Contained, epoch := epoch + 1, proof := drawn)
    }

    function RestoreContained(target: int, drawn: Id): Result<Rt, RuntimeError> {
      if target < 0 then Err(NegativeEpoch)
      else if state == Active then Ok(this.(state := Contained, epoch := target, proof := drawn))
      else if state == Contained then if epoch != target then Err(EpochMismatch) else Ok(this)
      else Err(CannotRestore)
    }

    function Recover(presented: Id, expected: int, drawn: Id): Result<Rt, RuntimeError> {
      if expected < 0 then Err(NegativeEpoch)
      else if presented != capability then Err(WrongCapability)
      else if state != Contained then Err(NotContained)
      else if epoch != expected then Err(EpochMismatch)
      else Ok(this.(state := Active, epoch := epoch + 1, proof := drawn))
    }

    function RestoreActive(target: int, drawn: Id): Result<Rt, RuntimeError> {
      if target < 0 then Err(NegativeEpoch)
      else Ok(this.(state := Active, epoch := target, proof := drawn))
    }

    function AcquireLease(): Option<Lease> {
      if CanExecute() then Some(Lease(agentId, epoch, Some(proof))) else None
    }

    predicate LeaseValid(lease: Lease) {
      && lease.agentId == agentId
      && lease.epoch == epoch
      && lease.proof == Some(proof)
      && CanExecute()
    }
  }

  /** Every locked operation that may change a runtime. */
  datatype Op =
    | OpHalt
    | OpContain
    | OpRestoreContained(target: int)
    | OpRecover(presented: Id, expected: int)
    | OpRestoreActive(target: int)
    | OpRotate

  /** A runtime together with the supply of identities not yet drawn. */
  datatype World = World(rt: Rt, next: Id) {
    ghost predicate Valid() {
      rt.proof < next && rt.capability < next
    }
  }

  /** The guard under which an operation performs a transition, read off before it runs. */
  predicate Effective(rt: Rt, op: Op) {
    match op
    case OpHalt => true
    case OpContain => true
    case OpRestoreContained(target) => target >= 0 && rt.state == Active
    case OpRecover(presented, expected) =>
      presented == rt.capability && rt.state == Contained && rt.epoch == expected
    case OpRestoreActive(target) => target >= 0
    case OpRotate => false
  }

  function Apply(w: World, op: Op): World {
    match op
    case OpHalt => World(w.rt.Halt(w.next), w.next + 1)
    case OpContain => World(w.rt.Contain(w.next), w.next + 1)
    case OpRestoreContained(target) =>
      (match w.rt.RestoreContained(target, w.next)
       case Ok(rt) => if w.rt.state == Active then World(rt, w.next + 1) else w.(rt := rt)
       case Err(_) => w)
    case OpRecover(presented, expected) =>
      (match w.rt.Recover(presented, expected, w.next)
       case Ok(rt) => World(rt, w.next + 1)
       case Err(_) => w)
    case OpRestoreActive(target) =>
      (match w.rt.RestoreActive(target, w.next)
       case Ok(rt) => World(rt, w.next + 1)
       case Err(_) => w)
    case OpRotate => World(w.rt.(capability := w.next), w.next + 1)
  }

  function ApplyAll(w: World, ops: seq<Op>): World
    decreases ops
  {
    if ops == [] then w else ApplyAll(Apply(w, ops[0]), ops[1..])
  }

  /** Some operation of the run performed a transition. */
  predicate Transitioned(w: World, ops: seq<Op>)
    decreases ops
  {
    ops != [] && (Effective(w.rt, ops[0]) || Transitioned(Apply(w, ops[0]), ops[1..]))
  }

  lemma {:induction false} ApplyAllAppend(w: World, ops: seq<Op>, more: seq<Op>)
    ensures ApplyAll(w, ops + more) == ApplyAll(ApplyAll(w, ops), more)
    decreases ops
  {
    if ops == [] {
      assert ops + more == more;
    } else {
      assert (ops + more)[1..] == ops[1..] + more;
      ApplyAllAppend(Apply(w, ops[0]), ops[1..], more);
    }
  }

  lemma ApplyOne(w: World, op: Op)
    ensures ApplyAll(w, [op]) == Apply(w, op)
  {
    assert [op][1..] == [];
  }

  lemma {:induction false} TransitionedAppend(w: World, ops: seq<Op>, more: seq<Op>)
    ensures Transitioned(w, ops + more) <==> Transitioned(w, ops) || Transitioned(ApplyAll(w, ops), more)
    decreases ops
  {
    if ops == [] {
      assert ops + more == more;
    } else {
      assert (ops + more)[1..] == ops[1..] + more;
      TransitionedAppend(Apply(w, ops[0]), ops[1..], more);
    }
  }

  /** Without a transition nothing a lease depends on moves; with one, the proof is newly drawn. */
  lemma {:induction false} ProofOfRun(w: World, ops: seq<Op>)
    requires w.Valid()
    ensures ApplyAll(w, ops).Valid()
    ensures ApplyAll(w, ops).rt.agentId == w.rt.agentId
    ensures ApplyAll(w, ops).next >= w.next
    ensures Transitioned(w, ops) ==> ApplyAll(w, ops).rt.proof >= w.next
    ensures !Transitioned(w, ops) ==>
              ApplyAll(w, ops).rt.(capability := w.rt.capability) == w.rt
    decreases ops
  {
    if ops != [] {
      var v := Apply(w, ops[0]);
      ProofOfRun(v, ops[1..]);
      if Effective(w.rt, ops[0]) && !Transitioned(v, ops[1..]) {
        assert ApplyAll(v, ops[1..]).rt.proof == v.rt.proof == w.next;
      }
    }
  }

  /** Exact lease generations: an acquired lease is accepted later exactly when no transition
      happened in between, whatever epoch a restore put back. */
  lemma {:induction false} LeaseGenerations(w: World, ops: seq<Op>)
    requires w.Valid()
    requires w.rt.CanExecute()
    ensures w.rt.AcquireLease().Some?
    ensures ApplyAll(w, ops).rt.LeaseValid(w.rt.AcquireLease().value) <==> !Transitioned(w, ops)
  {
    ProofOfRun(w, ops);
  }

  /** The transitions of a runtime once it is registered: nothing restores an epoch. */
  predicate Forward(op: Op) {
    op.OpHalt? || op.OpContain? || op.OpRecover?
  }

  /** Comparing epochs, as `authorize` does, is enough as long as nothing restores one. */
  lemma {:induction false} EpochTellsForward(w: World, ops: seq<Op>)
    requires forall i :: 0 <= i < |ops| ==> Forward(ops[i])
    ensures ApplyAll(w, ops).rt.epoch >= w.rt.epoch
    ensures ApplyAll(w, ops).rt.epoch == w.rt.epoch <==> !Transitioned(w, ops)
    ensures !Transitioned(w, ops) ==> ApplyAll(w, ops).rt == w.rt
    ensures ApplyAll(w, ops).rt.capability == w.rt.capability
    decreases ops
  {
    if ops != [] {
      EpochTellsForward(Apply(w, ops[0]), ops[1..]);
    }
  }

  /** With a restore in between it is not: the epoch and the state are back, and only the lease proof
      tells. */
  lemma {:induction false} RestoreFoolsEpoch(w: World) returns (ops: seq<Op>)
    requires w.Valid() && w.rt.CanExecute()
    ensures ApplyAll(w, ops).rt.epoch == w.rt.epoch && ApplyAll(w, ops).rt.CanExecute()
    ensures Transitioned(w, ops) && !ApplyAll(w, ops).rt.LeaseValid(w.rt.AcquireLease().value)
  {
    ops := [OpHalt, OpRestoreActive(w.rt.epoch)];
    var halted := Apply(w, OpHalt);
    var restored := Apply(halted, OpRestoreActive(w.rt.epoch));
    assert ops[1..] == [OpRestoreActive(w.rt.epoch)];
    assert ops[1..][1..] == [];
    assert ApplyAll(halted, ops[1..]) == ApplyAll(restored, []) == restored;
    LeaseGenerations(w, ops);
  }

  /** What a thread that holds only the runtime's lock may do to a registered runtime. */
  predicate Stops(ops: seq<Op>) {
    forall i :: 0 <= i < |ops| ==> ops[i].OpHalt? || ops[i].OpContain?
  }

  /** Every such step is a transition: it counts in the epoch, and leaves the runtime stopped. */
  lemma {:induction false} StopsCount(w: World, ops: seq<Op>)
    requires Stops(ops)
    ensures ApplyAll(w, ops).rt.epoch == w.rt.epoch + |ops|
    ensures ops != [] || !w.rt.CanExecute() ==> !ApplyAll(w, ops).rt.CanExecute()
    ensures ApplyAll(w, ops).rt.capability == w.rt.capability && ApplyAll(w, ops).rt.agentId == w.rt.agentId
    ensures ApplyAll(w, ops).next == w.next + |ops|
    decreases ops
  {
    if ops != [] {
      StopsCount(Apply(w, ops[0]), ops[1..]);
    }
  }

  /** A halt holds: neither a recovery nor the restoration of a containment brings the runtime back or takes
      it anywhere else. Only an explicit restart does, or a containment, which stops it again. */
  lemma {:induction false} HaltHolds(w: World, ops: seq<Op>)
    requires w.rt.state == Halted
    requires forall i :: 0 <= i < |ops| ==> !ops[i].OpContain? && !ops[i].OpRestoreActive?
    ensures ApplyAll(w, ops).rt.state == Halted
    decreases ops
  {
    if ops != [] {
      HaltHolds(Apply(w, ops[0]), ops[1..]);
    }
  }

  /** The supply of identities of one process. */
  class IdSource {
    var next: Id

    constructor ()
      ensures next == 0
    {
      next := 0;
    }

    method Take() returns (id: Id)
      modifies this
      ensures id == old(next) && next == id + 1
    {
      id := next;
      next := next + 1;
    }
  }

  class Runtime {
    const agentId: string
    const ids: IdSource
    var state: RuntimeState
    var epoch: nat
    var proof: Id
    var capability: Id

    /** A snapshot. */
    function View(): Rt
      reads this
    {
      Rt(agentId, state, epoch, proof, capability)
    }

    ghost function Abs(): World
      reads this, ids
    {
      World(View(), ids.next)
    }

    ghost predicate Valid()
      reads this, ids
    {
      Abs().Valid()
    }

    constructor (agentId: string, ids: IdSource)
      modifies ids
      ensures this.agentId == agentId && this.ids == ids && Valid()
      ensures View() == Rt(agentId, Active, 0, old(ids.next), old(ids.next) + 1)
      ensures ids.next == old(ids.next) + 2
    {
      this.agentId := agentId;
      this.ids := ids;
      state := Active;
      epoch := 0;
      new;
      proof := ids.Take();
      capability := ids.Take();
    }

    method Halt()
      requires Valid()
      modifies this, ids
      ensures Valid() && Abs() == Apply(old(Abs()), OpHalt)
      ensures state == Halted && epoch == old(epoch) + 1 && proof == old(ids.next) && capability == old(capability)
    {
      state := Halted;
      epoch := epoch + 1;
      proof := ids.Take();
    }

    method Contain()
      requires Valid()
      modifies this, ids
      ensures Valid() && Abs() == Apply(old(Abs()), OpContain)
      ensures state == Contained && epoch == old(epoch) + 1 && proof == old(ids.next) && capability == old(capability)
    {
      state := Contained;
      epoch := epoch + 1;
      proof := ids.Take();
    }

    method RestoreContained(target: int) returns (r: Result<(), RuntimeError>)
      requires Valid()
      modifies this, ids
      ensures Valid() && Abs() == Apply(old(Abs()), OpRestoreContained(target))
      ensures r.Ok? <==> target >= 0 && (old(state) == Active || (old(state) == Contained && old(epoch) == target))
      ensures r.Ok? && old(state) == Active ==>
                View() == old(View()).(state := Contained, epoch := target, proof := old(ids.next))
      ensures r.Ok? <==> old(View()).RestoreContained(target, old(ids.next)).Ok?
      ensures r.Err? ==> old(View()).RestoreContained(target, old(ids.next)) == Err(r.error)
      ensures r.Err? || old(state) != Active ==> View() == old(View()) && ids.next == old(ids.next)
      ensures r.Err? ==> r.error == if target < 0 then NegativeEpoch
                                    else if old(state) == Contained then EpochMismatch else CannotRestore
    {
      if target < 0 {
        return Err(NegativeEpoch);
      }
      if state == Active {
        state := Contained;
        epoch := target;
        proof := ids.Take();
        return Ok(());
      }
      if state == Contained {
        if epoch != target {
          return Err(EpochMismatch);
        }
        return Ok(());
      }
      return Err(CannotRestore);
    }

    method RotateRecoveryCapability() returns (drawn: Id)
      requires Valid()
      modifies this, ids
      ensures Valid() && Abs() == Apply(old(Abs()), OpRotate)
      ensures drawn == capability == old(ids.next) && View() == old(View()).(capability := drawn)
    {
      capability := ids.Take();
      drawn := capability;
    }

    method Recover(presented: Id, expected: int) returns (r: Result<nat, RuntimeError>)
      requires Valid()
      modifies this, ids
      ensures Valid() && Abs() == Apply(old(Abs()), OpRecover(presented, expected))
      ensures r.Ok? <==> presented == old(capability) && old(state) == Contained && old(epoch) == expected
      ensures r.Ok? ==>
                && r.value == expected + 1
                && View() == old(View()).(state := Active, epoch := r.value, proof := old(ids.next))
      ensures r.Err? ==> old(View()).Recover(presented, expected, old(ids.next)) == Err(r.error)
      ensures r.Err? ==> View() == old(View()) && ids.next == old(ids.next)
      ensures r.Err? ==> r.error == if expected < 0 then NegativeEpoch
                                    else if presented != old(capability) then WrongCapability
                                    else if old(state) != Contained then NotContained else EpochMismatch
    {
      if expected < 0 {
        return Err(NegativeEpoch);
      }
      if presented != capability {
        return Err(WrongCapability);
      }
      if state != Contained {
        return Err(NotContained);
      }
      if epoch != expected {
        return Err(EpochMismatch);
      }
      epoch := epoch + 1;
      state := Active;
      proof := ids.Take();
      return Ok(epoch);
    }

    method RestoreActive(target: int) returns (r: Result<(), RuntimeError>)
      requires Valid()
      modifies this, ids
      ensures Valid() && Abs() == Apply(old(Abs()), OpRestoreActive(target))
      ensures r == if target < 0 then Err(NegativeEpoch) else Ok(())
      ensures r.Ok? ==> View() == old(View()).(state := Active, epoch := target, proof := old(ids.next))
      ensures r.Err? ==> View() == old(View()) && ids.next == old(ids.next)
    {
      if target < 0 {
        return Err(NegativeEpoch);
      }
      state := Active;
      epoch := target;
      proof := ids.Take();
      return Ok(());
    }

    method AcquireLease() returns (lease: Option<Lease>)
      ensures lease == View().AcquireLease()
      ensures lease == if state == Active then Some(Lease(agentId, epoch, Some(proof))) else None
    {
      if state != Active {
        return None;
      }
      return Some(Lease(agentId, epoch, Some(proof)));
    }

    method LeaseValid(lease: Lease) returns (valid: bool)
      ensures valid == View().LeaseValid(lease)
      ensures valid <==> lease == Lease(agentId, epoch, Some(proof)) && state == Active
    {
      valid := lease.agentId == agentId && lease.epoch == epoch && lease.proof == Some(proof) && state == Active;
    }

    method Perform(op: Op)
      requires Valid()
      modifies this, ids
      ensures Valid() && Abs() == Apply(old(Abs()), op)
    {
      match op {
        case OpHalt => Halt();
        case OpContain => Contain();
        case OpRestoreContained(target) => var restored := RestoreContained(target);
        case OpRecover(presented, expected) => var recovered := Recover(presented, expected);
        case OpRestoreActive(target) => var restored := RestoreActive(target);
        case OpRotate => var drawn := RotateRecoveryCapability();
      }
    }

    /** What other threads do to the runtime meanwhile. */
    method PerformAll(ops: seq<Op>)
      requires Valid()
      modifies this, ids
      ensures Valid() && Abs() == ApplyAll(old(Abs()), ops)
    {
      for i := 0 to |ops|
        invariant Valid()
        invariant Abs() == ApplyAll(old(Abs()), ops[..i])
      {
        assert ops[..i + 1] == ops[..i] + [ops[i]];
        ApplyAllAppend(old(Abs()), ops[..i], [ops[i]]);
        assert [ops[i]][1..] == [];
        Perform(ops[i]);
      }
      assert ops[..|ops|] == ops;
    }
  }
}
