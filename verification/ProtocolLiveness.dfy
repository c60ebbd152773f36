/** Restart liveness: under which use of `contain` every crash point leaves a pair that `register`
    accepts, and that no other use does. */
module ProtocolLiveness {
  import opened Wrappers
  import opened RuntimeModel
  import opened IncidentRegistry
  import opened Protocol
  import opened ProtocolSafety
  import opened ProtocolRestart

  /** Nothing durable holds the agent, and the runtime is past its last recovery. */
  predicate Quiet(s: Sys) {
    && Unheld(s)
    && (s.live.Up? && s.incs != [] ==> s.live.rt.epoch > Latest(s.incs).value.epoch)
  }

  /** The epoch `contain` would ask for is the one the durable records already name. */
  predicate Resumes(s: Sys) {
    s.live.Up? &&
    if s.fence.Some? then s.live.rt.epoch + 1 == s.fence.value
    else s.incs != [] && s.live.rt.epoch + 1 == Latest(s.incs).value.epoch
  }

  /** What a caller can check before `contain`, from the two registries and the runtime's epoch. */
  predicate SafeToContain(s: Sys) {
    Quiet(s) || Resumes(s)
  }

  /** Between reading the runtime's epoch and writing it into the report. */
  predicate InWindow(pc: Pc) {
    pc.ContainFence? || pc.ContainRuntime? || pc.ContainReport?
  }

  predicate Allowed(s: Sys, a: Action) {
    && (a.CallContain? && s.pc.Idle? && s.live.Up? ==> SafeToContain(s))
    && (a.Halt? || a.ContainDirectly? ==> !InWindow(s.pc))
  }

  predicate Disciplined(s: Sys, acts: seq<Action>)
    decreases acts
  {
    acts == [] || (Allowed(s, acts[0]) && Disciplined(Step(s, acts[0]), acts[1..]))
  }

  /** Incidents of ever greater epochs, each filed under its own epoch. */
  ghost predicate Tidy(s: Sys) {
    && (forall i :: 0 <= i < |s.incs| ==> s.incs[i].id == IncidentId(s.agent, s.incs[i].epoch))
    && (forall i, j :: 0 <= i < j < |s.incs| ==> s.incs[i].epoch < s.incs[j].epoch)
  }

  /** `Coherent` without the freshness of the identifier, which `Tidy` provides. */
  predicate Paired(s: Sys) {
    s.fence.None? || s.incs == [] ||
    var last := Latest(s.incs).value;
    last.epoch == s.fence.value || (last.state == Recovered && s.fence.value > last.epoch + 1)
  }

  /** A containment at `target` is under way; its own records may or may not be written yet. */
  predicate Opening(s: Sys, target: nat) {
    && (s.fence.None? || s.fence == Some(target))
    && (s.incs == [] ||
        var last := Latest(s.incs).value;
        last.epoch == target || (last.state == Recovered && target > last.epoch + 1))
  }

  predicate OrderAt(s: Sys) {
    match s.pc
    case ContainFence(target) => Opening(s, target) && s.live.Up? && s.live.rt.epoch + 1 == target
    case ContainRuntime(target) => Opening(s, target) && s.live.Up? && s.live.rt.epoch + 1 == target
    case ContainReport(target) => Opening(s, target) && s.live.Up? && s.live.rt.epoch == target
    case ContainRecord(target, reported) => Opening(s, target) && reported == target
    case ContainAudit(target) => Opening(s, target)
    case ContainDegrade(at) => IsLast(s, at) && (s.fence.None? || s.fence == Some(s.incs[at].epoch))
    case _ => true
  }

  ghost predicate Ordered(s: Sys) {
    Safe(s) && Tidy(s) && Paired(s) && OrderAt(s)
  }

  /** The same incidents, whatever their states. */
  ghost predicate SameLedger(s: Sys, t: Sys) {
    && t.agent == s.agent && |t.incs| == |s.incs|
    && forall i :: 0 <= i < |s.incs| ==> t.incs[i].id == s.incs[i].id && t.incs[i].epoch == s.incs[i].epoch
  }

  lemma TidyKept(s: Sys, t: Sys)
    requires Tidy(s) && SameLedger(s, t)
    ensures Tidy(t)
  {}

  predicate Past(s: Sys, epoch: nat) {
    s.incs == [] || epoch > Latest(s.incs).value.epoch
  }

  lemma TidyExtended(s: Sys, t: Sys, epoch: nat)
    requires Tidy(s) && Past(s, epoch)
    requires t.agent == s.agent && t.incs == Recorded(s.agent, s.incs, epoch, epoch)
    ensures Tidy(t)
  {}

  lemma {:induction false} UnknownPastLast(s: Sys, epoch: nat)
    requires Tidy(s) && Past(s, epoch)
    ensures !Known(s.incs, IncidentId(s.agent, epoch))
  {
    forall i | 0 <= i < |s.incs| ensures s.incs[i].id != IncidentId(s.agent, epoch) {
      if s.incs[i].id == IncidentId(s.agent, epoch) {
        IncidentIdInjective(s.agent, s.incs[i].epoch, s.agent, epoch);
      }
    }
  }

  lemma {:induction false} FindsLast(s: Sys, epoch: nat)
    requires Tidy(s) && s.incs != [] && Latest(s.incs).value.epoch == epoch
    ensures Known(s.incs, IncidentId(s.agent, epoch))
    ensures IsLast(s, Find(s.incs, IncidentId(s.agent, epoch)))
  {
    assert s.incs[|s.incs| - 1].id == IncidentId(s.agent, epoch);
    var k := Find(s.incs, IncidentId(s.agent, epoch));
    IncidentIdInjective(s.agent, s.incs[k].epoch, s.agent, epoch);
  }

  lemma {:induction false} OrderedIsCoherent(s: Sys)
    requires Ordered(s)
    ensures Coherent(s)
  {
    if s.fence.Some? && Past(s, s.fence.value) {
      UnknownPastLast(s, s.fence.value);
    }
  }

  lemma {:induction false} OrderedContain(s: Sys, ok: bool)
    requires Ordered(s) && Containing(s.pc)
    ensures Tidy(StepContain(s, ok)) && Paired(StepContain(s, ok)) && OrderAt(StepContain(s, ok))
  {
    var t := StepContain(s, ok);
    if s.pc.ContainRecord? || s.pc.ContainAudit? {
      if Past(s, s.pc.target) {
        UnknownPastLast(s, s.pc.target);
      } else {
        FindsLast(s, s.pc.target);
      }
    }
    if |t.incs| == |s.incs| {
      assert SameLedger(s, t);
      TidyKept(s, t);
    } else {
      TidyExtended(s, t, s.pc.target);
    }
  }

  lemma PairedRecoverFront(s: Sys, ok: bool)
    requires Safe(s) && Paired(s)
    requires s.pc.RecClear? || s.pc.RecRelease? || s.pc.RecReleaseFence? || s.pc.RecMark? || s.pc.RecMarkFence?
    ensures var t := StepRecover(s, ok); SameLedger(s, t) && Paired(t) && !Containing(t.pc)
  {}

  lemma PairedRecoverBack(s: Sys, ok: bool)
    requires Safe(s) && Paired(s)
    requires s.pc.RecMarkRollback? || s.pc.RecActivate? || s.pc.RecActFence? || s.pc.RecActRollback?
             || s.pc.RecRecontain? || s.pc.RecRotate?
    ensures var t := StepRecover(s, ok); SameLedger(s, t) && Paired(t) && !Containing(t.pc)
  {}

  lemma {:induction false} OrderedRecover(s: Sys, ok: bool)
    requires Ordered(s) && Recovering(s.pc)
    ensures Tidy(StepRecover(s, ok)) && Paired(StepRecover(s, ok)) && OrderAt(StepRecover(s, ok))
  {
    if s.pc.RecClear? || s.pc.RecRelease? || s.pc.RecReleaseFence? || s.pc.RecMark? || s.pc.RecMarkFence? {
      PairedRecoverFront(s, ok);
    } else {
      PairedRecoverBack(s, ok);
    }
    TidyKept(s, StepRecover(s, ok));
  }

  /** The first write of `register` either edits the last incident or adds a later one. */
  lemma PairedRegisterStart(s: Sys, ok: bool)
    requires Safe(s) && Paired(s) && s.pc.RegStart?
    ensures var t := StepRegister(s, ok);
            && Paired(t) && !Containing(t.pc) && t.agent == s.agent
            && (|t.incs| == |s.incs| ==> SameLedger(s, t))
            && (|t.incs| != |s.incs| ==> s.fence.Some? && Past(s, s.fence.value)
                                         && t.incs == Recorded(s.agent, s.incs, s.fence.value, s.fence.value))
  {}

  lemma {:induction false} OrderedRegisterStart(s: Sys, ok: bool)
    requires Safe(s) && Tidy(s) && Paired(s) && s.pc.RegStart?
    ensures var t := StepRegister(s, ok); Tidy(t) && Paired(t) && !Containing(t.pc)
  {
    PairedRegisterStart(s, ok);
    var t := StepRegister(s, ok);
    if |t.incs| == |s.incs| {
      TidyKept(s, t);
    } else {
      TidyExtended(s, t, s.fence.value);
    }
  }

  lemma PairedRegister(s: Sys, ok: bool)
    requires Safe(s) && Paired(s) && Registering(s.pc) && !s.pc.RegStart?
    ensures var t := StepRegister(s, ok); SameLedger(s, t) && Paired(t) && !Containing(t.pc)
  {}

  lemma {:induction false} OrderedRegister(s: Sys, ok: bool)
    requires Ordered(s) && Registering(s.pc)
    ensures Tidy(StepRegister(s, ok)) && Paired(StepRegister(s, ok)) && OrderAt(StepRegister(s, ok))
  {
    if s.pc.RegStart? {
      OrderedRegisterStart(s, ok);
    } else {
      PairedRegister(s, ok);
      TidyKept(s, StepRegister(s, ok));
    }
  }

  lemma {:induction false} OrderedCall(s: Sys, a: Action)
    requires Safe(s) && Tidy(s) && Paired(s) && OrderAt(s) && Allowed(s, a)
    requires a.CallContain? || a.CallRecover? || a.CallRegister? || a.Unregister? || a.Crash?
    ensures Tidy(Step(s, a)) && Paired(Step(s, a)) && OrderAt(Step(s, a))
  {
    var t := Step(s, a);
    assert t.incs == s.incs && t.fence == s.fence && t.agent == s.agent;
    TidyKept(s, t);
  }

  /** What other threads do. */
  lemma {:induction false} OrderedThread(s: Sys, a: Action)
    requires Safe(s) && Tidy(s) && Paired(s) && OrderAt(s) && Allowed(s, a)
    requires a.Halt? || a.ContainDirectly? || a.AttachProof? || a.DrawElsewhere?
    ensures Tidy(Step(s, a)) && Paired(Step(s, a)) && OrderAt(Step(s, a))
  {
    var t := Step(s, a);
    assert SameLedger(s, t);
    TidyKept(s, t);
  }

  lemma {:induction false} OrderedStep(s: Sys, a: Action)
    requires Ordered(s) && Allowed(s, a)
    ensures Ordered(Step(s, a))
  {
    if a.Halt? || a.ContainDirectly? || a.AttachProof? || a.DrawElsewhere? {
      OrderedThread(s, a);
    } else if !a.Proceed? {
      OrderedCall(s, a);
    } else if s.pc.Idle? {
    } else if Registering(s.pc) {
      OrderedRegister(s, a.ok);
    } else if Containing(s.pc) {
      OrderedContain(s, a.ok);
    } else {
      OrderedRecover(s, a.ok);
    }
    SafeStep(s, a);
  }

  lemma {:induction false} OrderedRun(s: Sys, acts: seq<Action>)
    requires Ordered(s) && Disciplined(s, acts)
    ensures Ordered(Run(s, acts))
    decreases acts
  {
    if acts != [] {
      OrderedStep(s, acts[0]);
      OrderedRun(Step(s, acts[0]), acts[1..]);
    }
  }

  /** Restart liveness at every crash point. After any disciplined run, with any write failing and
      the process dying after any step, the surviving pair is accepted: as it stands, or, if it is
      ambiguous, with a supplied runtime that settles it. */
  lemma {:induction false} RestartLiveness(s0: Sys, acts: seq<Action>, rt: Rt)
    requires Fresh(s0) && s0.agent != "" && Disciplined(s0, acts)
    ensures var c := Step(Run(s0, acts), Crash);
            && Stopped(c) && Safe(c) && Coherent(c)
            && (!Ambiguous(c) ==> Run(c, RegisterRun(None)).live.Up?)
            && (!Ambiguous(c) && Marked(c) ==> Run(c, RegisterRun(None)).live.rt.state == RuntimeState.Contained)
            && (Ambiguous(c) && Drawn(c, rt) ==>
                  var e := Latest(c.incs).value.epoch;
                  (Run(c, RegisterRun(Some(rt))).live.Up? <==>
                     (rt.state == RuntimeState.Contained && rt.epoch == e) || (rt.CanExecute() && rt.epoch == e + 1)))
  {
    OrderedRun(s0, acts);
    SafeRun(s0, acts);
    var t := Run(s0, acts);
    SafeStep(t, Crash);
    var c := Step(t, Crash);
    OrderedIsCoherent(c);
    RestartAcceptedIff(c);
    if Ambiguous(c) && Drawn(c, rt) {
      AmbiguousRestartAcceptedIff(c, rt);
    }
  }
}
