/** Safety of the protocol over whole runs: the admission fence, agreement of the three copies,
    the recovery transaction and recovery authorizations. Every theorem holds for every sequence
    of calls, write failures, provider failures, interfering threads, crashes and restarts. */
module ProtocolTheorems {
  import opened Wrappers
  import opened RuntimeModel
  import opened IncidentRegistry
  import opened Protocol
  import opened ProtocolSafety

  /** A state some run reaches from a machine that has never contained the agent. */
  ghost predicate Reachable(s: Sys) {
    exists s0, acts: seq<Action> :: Fresh(s0) && s == Run(s0, acts)
  }

  lemma {:induction false} ReachableIsSafe(s: Sys)
    requires Reachable(s)
    ensures Safe(s)
  {
    var s0, acts: seq<Action> :| Fresh(s0) && s == Run(s0, acts);
    SafeRun(s0, acts);
  }

  /** What other agents draw, and how the last operation ended, have no bearing on it. */
  lemma SafeElsewhere(s: Sys, next: Id, out: Outcome)
    requires Safe(s) && next >= s.next
    ensures Safe(s.(next := next, out := out))
  {}

  // ----- the admission fence -----

  /** Between operations, an executable runtime never coexists with a durable fence or with an
      incident that still holds the agent. */
  lemma {:induction false} NoExecutableUnderMark(s: Sys)
    requires Safe(s) && s.pc.Idle? && Executable(s)
    ensures s.fence.None?
    ensures s.incs == [] || Latest(s.incs).value.state == Recovered
  {}

  /** Once any durable mark is committed, one remains for ever, and no later registration without
      a supplied controller produces an executable runtime. */
  lemma {:induction false} PermanentAdmissionFence(s: Sys, acts: seq<Action>, ok: bool)
    requires Safe(s) && Marked(s)
    ensures var t := Run(s, acts);
            && Marked(t)
            && (t.pc.RegInstall? && !t.pc.supplied ==>
                  Step(t, Proceed(ok)).live.Up? && Step(t, Proceed(ok)).live.rt.state == RuntimeState.Contained)
  {
    SafeRun(s, acts);
  }

  /** Three-way agreement: what a completed registration leaves behind. */
  lemma {:induction false} AgreementAfterRegistration(s: Sys, ok: bool)
    requires Safe(s) && Registering(s.pc)
    ensures var t := Step(s, Proceed(ok));
            t.live.Up? && Marked(t) ==>
              var last := Latest(t.incs);
              && last.Some?
              && (t.live.rt.state == RuntimeState.Contained ==>
                    && t.fence == Some(t.live.rt.epoch)
                    && last.value.Standing() && last.value.epoch == t.live.rt.epoch)
              && (Executable(t) ==>
                    t.fence.None? && last.value.state == Recovered && last.value.recovery == Some(t.live.rt.epoch))
  {
    SafeProceed(s, ok);
  }

  // ----- recovery is a transaction -----

  /** The operation stays in progress through every action but the last. */
  predicate DuringOperation(s: Sys, acts: seq<Action>)
    decreases acts
  {
    acts == [] || (Recovering(s.pc) && !acts[0].Crash? && DuringOperation(Step(s, acts[0]), acts[1..]))
  }

  /** No other thread halts or contains the runtime. */
  predicate NoInterference(acts: seq<Action>) {
    forall i :: 0 <= i < |acts| ==> !acts[i].Halt? && !acts[i].ContainDirectly?
  }

  /** What the other threads of the process do to the runtime and to the supply of identities. */
  function DisturbOne(w: World, a: Action): World {
    match a
    case Halt => Apply(w, OpHalt)
    case ContainDirectly => Apply(w, OpContain)
    case DrawElsewhere(drawn) => w.(next := w.next + drawn)
    case _ => w
  }

  function Disturb(w: World, acts: seq<Action>): World
    decreases acts
  {
    if acts == [] then w else Disturb(DisturbOne(w, acts[0]), acts[1..])
  }

  function WorldOf(s: Sys): World
    requires s.live.Up?
  {
    World(s.live.rt, s.next)
  }

  /** The durable side of a recovery that is over. */
  predicate RecoveryEnded(s: Sys, e: nat) {
    && s.incs != []
    && Latest(s.incs).value.epoch == e
    && s.live.Up?
    && match s.out
       case RecoverReturned(r) =>
         && r == e + 1
         && s.fence.None?
         && Latest(s.incs).value.state == Recovered && Latest(s.incs).value.recovery == Some(e + 1)
       case ClearFailed => HeldAt(s, e) && s.fence.Some?
       case ReleaseFailed(fenceBack) => HeldAt(s, e) && s.fence == if fenceBack then Some(e) else None
       case StorageFailed(writesBack, _) => writesBack ==> HeldAt(s, e) && s.fence == Some(e)
       case ActivationFailed(writesBack, _) => writesBack ==> HeldAt(s, e) && s.fence == Some(e)
       case _ => false
  }

  /** A recovery in progress, before its activation. */
  predicate RecoveryOf(s: Sys, e: nat) {
    && s.incs != [] && Latest(s.incs).value.epoch == e
    && s.live.Up? && s.live.rt.epoch >= e
    && Recovering(s.pc) && !s.pc.RecRotate?
    && (s.pc.RecActivate? ==> s.pc.epoch == e)
  }

  lemma RecoveryProceeds(s: Sys, ok: bool, e: nat)
    requires Safe(s) && RecoveryOf(s, e)
    ensures var t := StepRecover(s, ok);
            if t.pc.Idle? then RecoveryEnded(t, e) && !t.out.RecoverReturned? && WorldOf(t) == WorldOf(s)
            else if t.pc.RecRotate? then
              && s.pc.RecActivate? && s.live.rt.epoch == e && t.pc.recovered == e + 1
              && t.live.Up? && WorldOf(t) == Apply(WorldOf(s), OpRecover(s.live.capability, e))
              && t.incs != [] && Latest(t.incs).value.epoch == e
            else RecoveryOf(t, e) && WorldOf(t) == WorldOf(s)
  {}

  /** Any other thread's step during the recovery. */
  lemma RecoveryDisturbed(s: Sys, a: Action, e: nat)
    requires RecoveryOf(s, e) && !a.Proceed? && !a.Crash?
    ensures RecoveryOf(Step(s, a), e) && WorldOf(Step(s, a)) == DisturbOne(WorldOf(s), a)
    ensures Step(s, a).live.rt.epoch == s.live.rt.epoch <==> !a.Halt? && !a.ContainDirectly?
    ensures Step(s, a).live.capability == s.live.capability
  {}

  /** From the activation to the return: the capability is rotated at the end, and nothing else of the
      recovery touches the runtime. */
  lemma {:induction false} RotationRuns(s: Sys, acts: seq<Action>, e: nat)
    requires Safe(s) && s.pc == RecRotate(e + 1) && s.incs != [] && Latest(s.incs).value.epoch == e
    requires DuringOperation(s, acts) && Run(s, acts).pc.Idle?
    ensures RecoveryEnded(Run(s, acts), e) && Run(s, acts).out == RecoverReturned(e + 1)
    ensures acts != [] && s.live.Up?
    ensures WorldOf(Run(s, acts)) == Apply(Disturb(WorldOf(s), acts[..|acts| - 1]), OpRotate)
    decreases acts
  {
    var t := Step(s, acts[0]);
    SafeStep(s, acts[0]);
    if acts[0].Proceed? {
      assert t.pc.Idle? && acts[1..] == [];
      assert acts[..|acts| - 1] == [];
    } else {
      RotationRuns(t, acts[1..], e);
      assert acts[..|acts| - 1][1..] == acts[1..][..|acts[1..]| - 1];
      assert WorldOf(t) == DisturbOne(WorldOf(s), acts[0]);
    }
  }

  /** The activation is event `i`: until then no other thread touched the runtime, and afterwards only
      the rotation and other threads do. */
  predicate ActivatedAt(w: World, acts: seq<Action>, capability: Id, e: nat, i: nat, t: World) {
    && i + 1 < |acts| && acts[i].Proceed? && NoInterference(acts[..i])
    && t == Apply(Disturb(Apply(Disturb(w, acts[..i]), OpRecover(capability, e)), acts[i + 1..|acts| - 1]), OpRotate)
  }

  lemma {:induction false} ActivatedLater(w: World, a: Action, acts: seq<Action>, capability: Id, e: nat, i: nat,
                                          t: World)
    requires ActivatedAt(DisturbOne(w, a), acts, capability, e, i, t) && !a.Halt? && !a.ContainDirectly?
    ensures ActivatedAt(w, [a] + acts, capability, e, i + 1, t)
  {
    var all := [a] + acts;
    assert all[..i + 1] == [a] + acts[..i];
    assert all[..i + 1][1..] == acts[..i];
    assert all[i + 2..|all| - 1] == acts[i + 1..|acts| - 1];
  }

  lemma {:induction false} RecoveryRuns(s: Sys, acts: seq<Action>, e: nat) returns (i: nat)
    requires Safe(s) && RecoveryOf(s, e)
    requires DuringOperation(s, acts) && Run(s, acts).pc.Idle?
    ensures RecoveryEnded(Run(s, acts), e)
    ensures !Run(s, acts).out.RecoverReturned? ==> WorldOf(Run(s, acts)) == Disturb(WorldOf(s), acts)
    ensures Run(s, acts).out.RecoverReturned? ==>
              ActivatedAt(WorldOf(s), acts, s.live.capability, e, i, WorldOf(Run(s, acts))) && s.live.rt.epoch == e
    decreases acts
  {
    i := 0;
    var t := Step(s, acts[0]);
    SafeStep(s, acts[0]);
    assert acts == [acts[0]] + acts[1..];
    if acts[0].Proceed? {
      RecoveryProceeds(s, acts[0].ok, e);
      if t.pc.Idle? {
        assert acts[1..] == [];
      } else if t.pc.RecRotate? {
        RotationRuns(t, acts[1..], e);
        assert acts[..0] == [] && acts[1..|acts| - 1] == acts[1..][..|acts[1..]| - 1];
      } else {
        i := RecoveryRuns(t, acts[1..], e);
        if Run(s, acts).out.RecoverReturned? {
          ActivatedLater(WorldOf(s), acts[0], acts[1..], s.live.capability, e, i, WorldOf(Run(s, acts)));
          i := i + 1;
        }
      }
    } else {
      RecoveryDisturbed(s, acts[0], e);
      i := RecoveryRuns(t, acts[1..], e);
      if Run(s, acts).out.RecoverReturned? {
        ActivatedLater(WorldOf(s), acts[0], acts[1..], s.live.capability, e, i, WorldOf(Run(s, acts)));
        i := i + 1;
      }
    }
  }

  /** Recovery is a transaction. `acts` is everything that happens from the moment `recover` accepts the
      authorization until it returns or raises, whatever fails and whoever interferes. A raise leaves
      the runtime exactly as the other threads alone would have; a return has activated, at event `i`,
      a runtime nobody had touched, and rotated its capability at the end. */
  lemma {:induction false} RecoveryIsATransaction(s: Sys, auth: Auth, acts: seq<Action>) returns (i: nat)
    requires Safe(s) && s.pc.Idle? && s.live.Up? && Admissible(s, auth)
    requires DuringOperation(Step(s, CallRecover(auth)), acts)
    requires Run(Step(s, CallRecover(auth)), acts).pc.Idle?
    ensures var t := Run(Step(s, CallRecover(auth)), acts);
            && RecoveryEnded(t, auth.epoch)
            && (!t.out.RecoverReturned? ==> WorldOf(t) == Disturb(WorldOf(s), acts))
            && (t.out.RecoverReturned? ==> ActivatedAt(WorldOf(s), acts, auth.capability, auth.epoch, i, WorldOf(t)))
  {
    SafeStep(s, CallRecover(auth));
    i := RecoveryRuns(Step(s, CallRecover(auth)), acts, auth.epoch);
  }

  // ----- recovery authorizations -----

  /** `issue_recovery_authorization`, whose only effect is to re-apply the enforcers. */
  function Issue(s: Sys, reconciled: bool): Option<Auth> {
    if s.pc.Idle? && s.live.Up?
       && Latest(s.incs).Some? && Latest(s.incs).value.Standing()
       && s.live.rt.state == RuntimeState.Contained
       && s.live.rt.epoch == Latest(s.incs).value.epoch
       && s.fence == Some(Latest(s.incs).value.epoch)
       && reconciled
    then Some(Auth(s.agent, Latest(s.incs).value.epoch, s.live.capability))
    else None
  }

  predicate Session(s: Sys, capability: Id) {
    s.live.Up? && s.live.capability == capability
  }

  lemma SessionStep(s: Sys, a: Action, capability: Id)
    requires Safe(s) && capability < s.next
    ensures Session(Step(s, a), capability) ==>
              && Session(s, capability)
              && Step(s, a).live.rt.epoch >= s.live.rt.epoch
              && (Step(s, a).live.rt.epoch == s.live.rt.epoch ==>
                    Step(s, a).live.rt == s.live.rt && !a.Halt? && !a.ContainDirectly? && !a.Crash?)
  {
    if a.Proceed? && !s.pc.Idle? && Recovering(s.pc) {
      SessionRecover(s, a.ok, capability);
    }
  }

  lemma SessionRecover(s: Sys, ok: bool, capability: Id)
    requires Safe(s) && capability < s.next && Recovering(s.pc)
    ensures Session(StepRecover(s, ok), capability) ==>
              && Session(s, capability)
              && StepRecover(s, ok).live.rt.epoch >= s.live.rt.epoch
              && (StepRecover(s, ok).live.rt.epoch == s.live.rt.epoch ==> StepRecover(s, ok).live.rt == s.live.rt)
  {}

  /** A capability that has left the table never comes back, and while it stays the epoch only grows. */
  lemma {:induction false} SessionRun(s: Sys, acts: seq<Action>, capability: Id)
    requires Safe(s) && capability < s.next
    ensures Session(Run(s, acts), capability) ==>
              && Session(s, capability)
              && Run(s, acts).live.rt.epoch >= s.live.rt.epoch
              && (Run(s, acts).live.rt.epoch == s.live.rt.epoch ==>
                    && Run(s, acts).live.rt == s.live.rt
                    && NoInterference(acts)
                    && forall i :: 0 <= i < |acts| ==> !acts[i].Crash?)
    decreases acts
  {
    if acts != [] {
      SafeStep(s, acts[0]);
      SessionStep(s, acts[0], capability);
      SessionRun(Step(s, acts[0]), acts[1..], capability);
    }
  }

  /** Authorizations are fresh: one issued at `s` is accepted after `acts` only if the runtime has
      made no transition since, not even one that was undone; no thread halted or contained it and
      the process did not die. */
  lemma {:induction false} AuthorizationIsFresh(s: Sys, reconciled: bool, acts: seq<Action>)
    requires Safe(s) && Issue(s, reconciled).Some?
    requires Run(s, acts).live.Up? && Admissible(Run(s, acts), Issue(s, reconciled).value)
    ensures Run(s, acts).live.rt == s.live.rt
    ensures NoInterference(acts)
    ensures forall i :: 0 <= i < |acts| ==> !acts[i].Crash?
  {
    SessionRun(s, acts, s.live.capability);
  }

  /** The same at the moment that counts. If a call of `recover` with an authorization issued at `s`
      returns, then from the issue to the activation itself, event `i` of the call, nobody halted or
      contained the runtime, and the process did not die before the call. */
  lemma {:induction false} RecoverySeesIssuedRuntime(s: Sys, reconciled: bool, before: seq<Action>, during: seq<Action>)
    returns (i: nat)
    requires Safe(s) && Issue(s, reconciled).Some?
    requires Run(s, before).pc.Idle? && Run(s, before).live.Up?
    requires var called := Step(Run(s, before), CallRecover(Issue(s, reconciled).value));
             && DuringOperation(called, during)
             && Run(called, during).pc.Idle? && Run(called, during).out.RecoverReturned?
    ensures Run(s, before).live.rt == s.live.rt && NoInterference(before)
    ensures forall k :: 0 <= k < |before| ==> !before[k].Crash?
    ensures var auth := Issue(s, reconciled).value; var t := Run(s, before);
            && Run(Step(t, CallRecover(auth)), during).live.Up?
            && ActivatedAt(WorldOf(t), during, auth.capability, auth.epoch, i,
                           WorldOf(Run(Step(t, CallRecover(auth)), during)))
  {
    var auth, t := Issue(s, reconciled).value, Run(s, before);
    SafeRun(s, before);
    ReturnNeedsAdmission(t, auth, during);
    AuthorizationIsFresh(s, reconciled, before);
    i := RecoveryIsATransaction(t, auth, during);
  }

  lemma ReturnNeedsAdmission(t: Sys, auth: Auth, during: seq<Action>)
    requires t.pc.Idle? && t.live.Up?
    requires var called := Step(t, CallRecover(auth));
             DuringOperation(called, during) && Run(called, during).out.RecoverReturned?
    ensures Admissible(t, auth)
  {}

  /** No capability below `bound` is in the table, except while a recovery is being completed. */
  predicate Retired(s: Sys, bound: Id) {
    s.next >= bound && (s.live.Up? ==> s.pc.RecRotate? || s.live.capability >= bound)
  }

  lemma RetiredStep(s: Sys, a: Action, bound: Id)
    requires Safe(s) && Retired(s, bound)
    ensures Retired(Step(s, a), bound)
  {}

  lemma {:induction false} RetiredRun(s: Sys, acts: seq<Action>, bound: Id)
    requires Safe(s) && Retired(s, bound)
    ensures Retired(Run(s, acts), bound)
    decreases acts
  {
    if acts != [] {
      SafeStep(s, acts[0]);
      RetiredStep(s, acts[0], bound);
      RetiredRun(Step(s, acts[0]), acts[1..], bound);
    }
  }

  /** Authorizations are single use: once a recovery activates the runtime, no authorization built
      on any identity drawn before that moment is ever accepted again, restarts included. */
  lemma {:induction false} AuthorizationIsSingleUse(s: Sys, ok: bool, acts: seq<Action>, auth: Auth)
    requires Safe(s) && s.pc.RecActivate? && Step(s, Proceed(ok)).pc.RecRotate?
    requires auth.capability < Step(s, Proceed(ok)).next
    requires var t := Run(Step(s, Proceed(ok)), acts); t.pc.Idle? && t.live.Up?
    ensures !Admissible(Run(Step(s, Proceed(ok)), acts), auth)
  {
    SafeProceed(s, ok);
    var u := Step(s, Proceed(ok));
    RetiredRun(u, acts, u.next);
  }

  /** An issued authorization carries an identity already drawn, so the two theorems above meet. */
  lemma {:induction false} IssuedIdentityIsDrawn(s: Sys, reconciled: bool, acts: seq<Action>)
    requires Safe(s) && Issue(s, reconciled).Some?
    ensures Issue(s, reconciled).value.capability < Run(s, acts).next
    ensures Admissible(s, Issue(s, reconciled).value)
  {
    SafeRun(s, acts);
  }
}
