/** What every run of the protocol keeps, whatever fails and wherever it crashes. */
module ProtocolSafety {
  import opened Wrappers
  import opened RuntimeModel
  import opened IncidentRegistry
  import opened Protocol

  /** The agent has some durable mark: a fence, or an incident of any kind. */
  predicate Marked(s: Sys) {
    s.fence.Some? || s.incs != []
  }

  /** Nothing durable asks for the agent to be held. */
  predicate Unheld(s: Sys) {
    s.fence.None? && (s.incs == [] || Latest(s.incs).value.state == Recovered)
  }

  /** The latest incident holds the agent at `epoch`. */
  predicate HeldAt(s: Sys, epoch: nat) {
    s.incs != [] && Latest(s.incs).value.Standing() && Latest(s.incs).value.epoch == epoch
  }

  predicate RecoveredFrom(s: Sys, epoch: nat) {
    s.incs != [] && Latest(s.incs).value.state == Recovered && Latest(s.incs).value.epoch == epoch
  }

  predicate IsLast(s: Sys, at: nat) {
    at + 1 == |s.incs|
  }

  ghost predicate WellFormed(incs: seq<Inc>) {
    forall i :: 0 <= i < |incs| ==>
      incs[i].state != Open && (incs[i].state == Recovered ==> incs[i].recovery == Some(incs[i].epoch + 1))
  }

  /** Every identity in use has been drawn, and the service's capability is the runtime's own. */
  predicate Drawn(s: Sys, rt: Rt) {
    rt.agentId == s.agent && rt.proof < s.next && rt.capability < s.next
  }

  predicate Identities(s: Sys) {
    && (s.live.Up? ==> Drawn(s, s.live.rt) && s.live.capability == s.live.rt.capability)
    && (Registering(s.pc) ==> s.live.Down? && Drawn(s, s.pc.rt))
    && (Containing(s.pc) || Recovering(s.pc) ==> s.live.Up?)
  }

  predicate Executable(s: Sys) {
    s.live.Up? && s.live.rt.CanExecute()
  }

  /** A runtime about to be registered does not claim an epoch other than the durable one. */
  predicate AtEpoch(rt: Rt, epoch: nat) {
    !rt.CanExecute() && (rt.state == RuntimeState.Contained ==> rt.epoch == epoch)
  }

  predicate AtPc(s: Sys) {
    match s.pc
    case Idle => true
    case ContainFence(_) => true
    case ContainRuntime(_) => true
    case ContainReport(_) => !Executable(s)
    case ContainRecord(_, _) => !Executable(s)
    case ContainAudit(_) => !Executable(s)
    case ContainDegrade(at) => !Executable(s) && at < |s.incs|
    case RecClear(epoch, at) => HeldAt(s, epoch) && IsLast(s, at) && !Executable(s)
    case RecRelease(epoch, at) => HeldAt(s, epoch) && IsLast(s, at) && s.fence.None? && !Executable(s)
    case RecReleaseFence(epoch) => HeldAt(s, epoch) && s.fence.None? && !Executable(s)
    case RecMark(epoch, at) => HeldAt(s, epoch) && IsLast(s, at) && s.fence.None? && !Executable(s)
    case RecMarkFence(epoch) => HeldAt(s, epoch) && s.fence.None? && !Executable(s)
    case RecMarkRollback(fenceBack) =>
      s.incs != [] && HeldAt(s, Latest(s.incs).value.epoch) && !Executable(s)
      && s.fence == if fenceBack then Some(Latest(s.incs).value.epoch) else None
    case RecActivate(epoch, at) => RecoveredFrom(s, epoch) && IsLast(s, at) && s.fence.None? && !Executable(s)
    case RecActFence(epoch, at) => RecoveredFrom(s, epoch) && IsLast(s, at) && s.fence.None? && !Executable(s)
    case RecActRollback(at, fenceBack) =>
      s.incs != [] && RecoveredFrom(s, Latest(s.incs).value.epoch) && IsLast(s, at) && !Executable(s)
      && s.fence == if fenceBack then Some(Latest(s.incs).value.epoch) else None
    case RecRecontain(_, writesBack) =>
      s.incs != [] && !Executable(s)
      && (writesBack ==> HeldAt(s, Latest(s.incs).value.epoch) && s.fence == Some(Latest(s.incs).value.epoch))
    case RecRotate(recovered) =>
      recovered > 0 && RecoveredFrom(s, recovered - 1) && s.fence.None?
      && s.live.Up? && s.live.rt.epoch >= recovered
      && (s.live.rt.epoch == recovered ==> s.live.rt.CanExecute())
    case RegStart(rt, supplied, f) => f == s.fence && (!supplied ==> rt.CanExecute())
    case RegAdmit(rt, supplied, f) =>
      f == s.fence && (!supplied ==> rt.CanExecute())
      && (f.Some? ==> s.incs != [] && Latest(s.incs).value.Standing())
    case RegPrepare(rt, epoch) =>
      s.fence.None? && HeldAt(s, epoch) && rt.state == RuntimeState.Contained && rt.epoch == epoch
    case RegContained(rt, supplied) =>
      s.incs != [] && HeldAt(s, Latest(s.incs).value.epoch) && s.fence.Some?
      && (AtEpoch(rt, s.fence.value) || s.fence == Some(Latest(s.incs).value.epoch))
      && (!supplied && !rt.CanExecute() ==> rt.state == RuntimeState.Contained)
    case RegInstall(rt, supplied) =>
      && (Marked(s) && !rt.CanExecute() ==>
            s.fence.Some? && s.incs != [] && HeldAt(s, Latest(s.incs).value.epoch)
            && (rt.state == RuntimeState.Contained ==> rt.epoch == s.fence.value == Latest(s.incs).value.epoch))
      && (rt.CanExecute() ==> Unheld(s))
      && (Marked(s) && rt.CanExecute() ==> supplied && Latest(s.incs).value.recovery == Some(rt.epoch))
      && (Marked(s) && !supplied ==> rt.state == RuntimeState.Contained)
  }

  ghost predicate Safe(s: Sys) {
    && WellFormed(s.incs)
    && Identities(s)
    && (Executable(s) ==> Unheld(s) || s.pc.ContainRuntime?)
    && AtPc(s)
  }

  /** Identities are never handed back, and a durable mark is never lost. */
  predicate Keeps(s: Sys, t: Sys) {
    t.agent == s.agent && t.next >= s.next && (Marked(s) ==> Marked(t))
  }

  lemma SafeContain(s: Sys, ok: bool)
    requires Safe(s) && Containing(s.pc)
    ensures Safe(StepContain(s, ok)) && Keeps(s, StepContain(s, ok))
  {}

  lemma SafeRecoverRelease(s: Sys, ok: bool)
    requires Safe(s) && (s.pc.RecClear? || s.pc.RecRelease? || s.pc.RecReleaseFence?)
    ensures Safe(StepRecover(s, ok)) && Keeps(s, StepRecover(s, ok))
  {}

  lemma SafeRecoverMark(s: Sys, ok: bool)
    requires Safe(s) && (s.pc.RecMark? || s.pc.RecMarkFence? || s.pc.RecMarkRollback?)
    ensures Safe(StepRecover(s, ok)) && Keeps(s, StepRecover(s, ok))
  {}

  lemma SafeRecoverActivate(s: Sys, ok: bool)
    requires Safe(s) && (s.pc.RecActivate? || s.pc.RecActFence? || s.pc.RecActRollback?)
    ensures Safe(StepRecover(s, ok)) && Keeps(s, StepRecover(s, ok))
  {}

  lemma SafeRecoverEnd(s: Sys, ok: bool)
    requires Safe(s) && (s.pc.RecRecontain? || s.pc.RecRotate?)
    ensures Safe(StepRecover(s, ok)) && Keeps(s, StepRecover(s, ok))
  {}

  lemma SafeRegisterStart(s: Sys, ok: bool)
    requires Safe(s) && s.pc.RegStart?
    ensures Safe(StepRegister(s, ok)) && Keeps(s, StepRegister(s, ok))
  {}

  lemma SafeRegisterAdmitFenced(s: Sys, ok: bool)
    requires Safe(s) && s.pc.RegAdmit? && s.pc.fence.Some?
    ensures Safe(StepRegister(s, ok)) && Keeps(s, StepRegister(s, ok))
  {}

  lemma SafeRegisterAdmitUnfenced(s: Sys, ok: bool)
    requires Safe(s) && s.pc.RegAdmit? && s.pc.fence.None?
    ensures Safe(StepRegister(s, ok)) && Keeps(s, StepRegister(s, ok))
  {}

  lemma SafeRegisterEnd(s: Sys, ok: bool)
    requires Safe(s) && (s.pc.RegPrepare? || s.pc.RegContained? || s.pc.RegInstall?)
    ensures Safe(StepRegister(s, ok)) && Keeps(s, StepRegister(s, ok))
  {}

  /** Threads that hold only the runtime's lock. */
  lemma SafeRuntimeThread(s: Sys, a: Action)
    requires Safe(s) && (a.Halt? || a.ContainDirectly?)
    ensures Safe(Step(s, a)) && Keeps(s, Step(s, a))
  {}

  lemma SafeAttachProof(s: Sys, a: Action)
    requires Safe(s) && a.AttachProof?
    ensures Safe(Step(s, a)) && Keeps(s, Step(s, a))
  {}

  lemma SafeCall(s: Sys, a: Action)
    requires Safe(s) && (a.CallContain? || a.CallRecover? || a.CallRegister?)
    ensures Safe(Step(s, a)) && Keeps(s, Step(s, a))
  {}

  lemma SafeProceed(s: Sys, ok: bool)
    requires Safe(s)
    ensures Safe(Step(s, Proceed(ok))) && Keeps(s, Step(s, Proceed(ok)))
  {
    if s.pc.Idle? {
    } else if Registering(s.pc) {
      if s.pc.RegStart? {
        SafeRegisterStart(s, ok);
      } else if s.pc.RegAdmit? {
        if s.pc.fence.Some? {
          SafeRegisterAdmitFenced(s, ok);
        } else {
          SafeRegisterAdmitUnfenced(s, ok);
        }
      } else {
        SafeRegisterEnd(s, ok);
      }
    } else if Containing(s.pc) {
      SafeContain(s, ok);
    } else if s.pc.RecClear? || s.pc.RecRelease? || s.pc.RecReleaseFence? {
      SafeRecoverRelease(s, ok);
    } else if s.pc.RecMark? || s.pc.RecMarkFence? || s.pc.RecMarkRollback? {
      SafeRecoverMark(s, ok);
    } else if s.pc.RecActivate? || s.pc.RecActFence? || s.pc.RecActRollback? {
      SafeRecoverActivate(s, ok);
    } else {
      SafeRecoverEnd(s, ok);
    }
  }

  lemma SafeStep(s: Sys, a: Action)
    requires Safe(s)
    ensures Safe(Step(s, a)) && Keeps(s, Step(s, a))
  {
    if a.Proceed? {
      SafeProceed(s, a.ok);
    } else if a.CallContain? || a.CallRecover? || a.CallRegister? {
      SafeCall(s, a);
    } else if a.Halt? || a.ContainDirectly? {
      SafeRuntimeThread(s, a);
    } else if a.AttachProof? {
      SafeAttachProof(s, a);
    }
  }

  lemma {:induction false} SafeRun(s: Sys, acts: seq<Action>)
    requires Safe(s)
    ensures Safe(Run(s, acts)) && Keeps(s, Run(s, acts))
    decreases acts
  {
    if acts != [] {
      SafeStep(s, acts[0]);
      SafeRun(Step(s, acts[0]), acts[1..]);
    }
  }
}
