/** What one call of `recover` does to the agent, path by path. */
module RecoverRuns {
  import opened Wrappers
  import opened RuntimeModel
  import opened IncidentRegistry
  import opened Protocol

  /** How the devices, the providers and the other threads behave during one call. */
  datatype Faults = Faults(
    clears: bool,       // the fence can be removed
    fenceBack: bool,    // a compensating fence write succeeds
    admits: bool,       // the RECOVERED record is written
    rollsBack: bool,    // a compensating incident write succeeds
    before: seq<Op>,    // what other threads do to the runtime before its activation
    after: seq<Op>,     // and between the activation and the rotation of the capability
    released: bool,     // every provider is released and verified
    recontained: bool)  // compensation re-applies and verifies every provider
  {
    predicate Valid() {
      Stops(before) && Stops(after)
    }
  }

  /** The capability in the service's table is the runtime's own. */
  predicate Owned(s: Sys) {
    s.live.Up? ==> s.live.capability == s.live.rt.capability
  }

  function FenceBack(epoch: nat, f: Faults): Option<nat> {
    if f.fenceBack then Some(epoch) else None
  }

  /** The activation, whatever the other threads then do, and the rotation. */
  function Activated(w: World, capability: Id, e: nat, after: seq<Op>): World {
    Apply(ApplyAll(Apply(w, OpRecover(capability, e)), after), OpRotate)
  }

  /** From the moment the RECOVERED record is written. */
  function AfterAdmission(s: Sys, e: nat, f: Faults): Sys
    requires s.live.Up? && s.incs != []
  {
    if f.before != [] then
      s.(fence := FenceBack(e, f),
         incs := if f.rollsBack then SetState(s.incs, |s.incs| - 1, IncidentState.Contained) else s.incs,
         out := ActivationFailed(f.fenceBack && f.rollsBack, f.recontained))
    else
      var w := Activated(World(s.live.rt, s.next), s.live.capability, e, f.after);
      s.(live := Up(w.rt, w.rt.capability), next := w.next, out := RecoverReturned(e + 1))
  }

  /** From the moment the fence is cleared and the providers are released. */
  function AfterRelease(s: Sys, e: nat, f: Faults): Sys
    requires s.live.Up? && s.incs != []
  {
    if !f.admits then s.(fence := FenceBack(e, f), out := StorageFailed(f.fenceBack, f.recontained))
    else AfterAdmission(s.(fence := None, incs := Admit(s.incs, |s.incs| - 1)), e, f)
  }

  /** From the moment the authorization is accepted. */
  function AfterChecks(s: Sys, e: nat, f: Faults): Sys
    requires s.live.Up? && s.incs != []
  {
    if !f.clears && s.fence.Some? then s.(out := ClearFailed)
    else if !f.released then s.(fence := FenceBack(e, f), out := ReleaseFailed(f.fenceBack))
    else AfterRelease(s.(fence := None), e, f)
  }

  /** What one call of `recover` does to the agent, whatever fails and whoever interferes. */
  function Recovered(s: Sys, auth: Auth, f: Faults): Sys
    requires s.live.Up?
  {
    if !Admissible(s, auth) then s.(out := RecoverRejected)
    else AfterChecks(Disturbed(s, f.before), auth.epoch, f)
  }

  lemma ChecksPassed(s: Sys, e: nat, f: Faults, recontained: bool)
    requires s.live.Up? && s.incs != [] && (f.clears || s.fence.None?)
    ensures AfterChecks(s, e, f.(released := true, recontained := recontained))
         == AfterRelease(s.(fence := None), e, f.(recontained := recontained))
  {}

  /** The rest of an accepted call as a run of the protocol. */
  function RestActs(fence: Option<nat>, f: Faults): seq<Action>
    requires f.Valid()
  {
    if !f.clears && fence.Some? then [Proceed(false)]
    else if !f.released then [Proceed(f.clears), Proceed(false), Proceed(f.fenceBack)]
    else if !f.admits then
      [Proceed(f.clears), Proceed(true), Proceed(false)] + [Proceed(f.fenceBack)] + [Proceed(true)]
        + [Proceed(f.recontained)]
    else if f.before != [] then
      [Proceed(f.clears), Proceed(true), Proceed(true)] + [Proceed(true)]
      + [Proceed(f.fenceBack)] + [Proceed(f.rollsBack)] + [Proceed(f.recontained)]
    else
      [Proceed(f.clears), Proceed(true), Proceed(true)] + [Proceed(true)] + Threads(f.after) + [Proceed(true)]
  }

  /** The call as a run of the protocol. */
  function RecoverActs(s: Sys, auth: Auth, f: Faults): seq<Action>
    requires s.live.Up? && f.Valid()
  {
    if !Admissible(s, auth) then [CallRecover(auth)]
    else [CallRecover(auth)] + Threads(f.before) + RestActs(s.fence, f)
  }

  // ----- the rest of an accepted call, path by path -----

  /** The authorization at epoch `e` has been accepted; other threads may have stopped the runtime
      further since. */
  predicate Accepted(u: Sys, e: nat, f: Faults) {
    && u.live.Up? && Owned(u) && u.incs != []
    && Latest(u.incs).value.Standing() && Latest(u.incs).value.epoch == e
    && u.live.rt.epoch == e + |f.before|
    && (f.before == [] ==> u.live.rt.state == RuntimeState.Contained)
    && f.Valid()
  }

  lemma UnclearedPath(u: Sys, e: nat, f: Faults)
    requires Accepted(u, e, f) && u.pc == RecClear(e, |u.incs| - 1) && !f.clears && u.fence.Some?
    ensures Run(u, [Proceed(false)]) == u.(pc := Idle, out := ClearFailed)
  {
    RunOne(u, Proceed(false));
  }

  /** Up to the moment the RECOVERED record is written, or fails to be. */
  lemma ReachesMark(u: Sys, e: nat, f: Faults)
    requires Accepted(u, e, f) && u.pc == RecClear(e, |u.incs| - 1) && (f.clears || u.fence.None?)
    ensures var at := |u.incs| - 1; var t := Step(Step(u, Proceed(f.clears)), Proceed(true));
            && Step(u, Proceed(f.clears)) == u.(fence := None, pc := RecRelease(e, at))
            && t == u.(fence := None, pc := RecMark(e, at))
            && Step(t, Proceed(true)) == u.(fence := None, incs := Admit(u.incs, at), pc := RecActivate(e, at))
            && Step(t, Proceed(false)) == u.(fence := None, pc := RecMarkFence(e))
  {
    assert Step(u, Proceed(f.clears)) == u.(fence := None, pc := RecRelease(e, |u.incs| - 1));
  }

  // One step each.

  lemma ReleaseRefused(t: Sys, e: nat, at: nat)
    requires t.live.Up? && t.pc == RecRelease(e, at)
    ensures Step(t, Proceed(false)) == t.(pc := RecReleaseFence(e))
  {}

  lemma ReleaseFenceStep(t: Sys, e: nat, f: Faults)
    requires t.live.Up? && t.pc == RecReleaseFence(e) && t.fence.None?
    ensures Step(t, Proceed(f.fenceBack)) == t.(fence := FenceBack(e, f), pc := Idle, out := ReleaseFailed(f.fenceBack))
  {}

  lemma MarkFenceStep(t: Sys, e: nat, f: Faults)
    requires t.live.Up? && t.pc == RecMarkFence(e) && t.fence.None?
    ensures Step(t, Proceed(f.fenceBack)) == t.(fence := FenceBack(e, f), pc := RecMarkRollback(f.fenceBack))
  {}

  /** The activation is refused exactly when another thread has been there. */
  lemma ActivateStep(t: Sys, e: nat, at: nat, before: seq<Op>)
    requires t.live.Up? && Owned(t) && t.pc == RecActivate(e, at) && t.live.rt.epoch == e + |before|
    requires before == [] ==> t.live.rt.state == RuntimeState.Contained
    ensures Step(t, Proceed(true))
         == if before != [] then t.(pc := RecActFence(e, at))
            else
              var w := Apply(World(t.live.rt, t.next), OpRecover(t.live.capability, e));
              t.(live := t.live.(rt := w.rt), next := w.next, pc := RecRotate(e + 1))
  {}

  lemma UnreleasedPath(u: Sys, e: nat, f: Faults)
    requires Accepted(u, e, f) && u.pc == RecClear(e, |u.incs| - 1) && (f.clears || u.fence.None?)
    ensures Run(u, [Proceed(f.clears), Proceed(false), Proceed(f.fenceBack)])
         == u.(fence := FenceBack(e, f), pc := Idle, out := ReleaseFailed(f.fenceBack))
  {
    ReachesMark(u, e, f);
    RunThree(u, Proceed(f.clears), Proceed(false), Proceed(f.fenceBack));
    ReleaseRefused(u.(fence := None, pc := RecRelease(e, |u.incs| - 1)), e, |u.incs| - 1);
    ReleaseFenceStep(u.(fence := None, pc := RecReleaseFence(e)), e, f);
  }

  lemma StorageHead(u: Sys, e: nat, f: Faults)
    requires Accepted(u, e, f) && u.pc == RecClear(e, |u.incs| - 1) && (f.clears || u.fence.None?)
    ensures Run(u, [Proceed(f.clears), Proceed(true), Proceed(false)] + [Proceed(f.fenceBack)])
         == u.(fence := FenceBack(e, f), pc := RecMarkRollback(f.fenceBack))
  {
    ReachesMark(u, e, f);
    RunThree(u, Proceed(f.clears), Proceed(true), Proceed(false));
    RunLast(u, [Proceed(f.clears), Proceed(true), Proceed(false)], Proceed(f.fenceBack));
    MarkFenceStep(u.(fence := None, pc := RecMarkFence(e)), e, f);
  }

  lemma StorageEnd(t: Sys, f: Faults)
    requires t.live.Up? && t.incs != [] && Latest(t.incs).value.Standing() && t.pc == RecMarkRollback(f.fenceBack)
    ensures Step(Step(t, Proceed(true)), Proceed(f.recontained))
         == t.(pc := Idle, out := StorageFailed(f.fenceBack, f.recontained))
  {
    assert Step(t, Proceed(true)) == t.(pc := RecRecontain(false, f.fenceBack));
  }

  lemma StoragePath(u: Sys, e: nat, f: Faults)
    requires Accepted(u, e, f) && u.pc == RecClear(e, |u.incs| - 1)
    requires f.clears || u.fence.None?
    ensures Run(u, [Proceed(f.clears), Proceed(true), Proceed(false)] + [Proceed(f.fenceBack)] + [Proceed(true)]
                + [Proceed(f.recontained)])
         == u.(fence := FenceBack(e, f), pc := Idle, out := StorageFailed(f.fenceBack, f.recontained))
  {
    var head := [Proceed(f.clears), Proceed(true), Proceed(false)] + [Proceed(f.fenceBack)];
    StorageHead(u, e, f);
    StorageEnd(Run(u, head), f);
    RunLast(u, head, Proceed(true));
    RunLast(u, head + [Proceed(true)], Proceed(f.recontained));
  }

  /** Compensation after the activation has been refused. */
  lemma Compensates(t: Sys, e: nat, f: Faults)
    requires t.live.Up? && t.incs != [] && Latest(t.incs).value.state == IncidentState.Recovered
             && t.pc == RecActFence(e, |t.incs| - 1)
    ensures Step(Step(Step(t, Proceed(f.fenceBack)), Proceed(f.rollsBack)), Proceed(f.recontained))
         == t.(fence := if f.fenceBack then Some(e) else t.fence,
               incs := if f.rollsBack then SetState(t.incs, |t.incs| - 1, IncidentState.Contained) else t.incs,
               pc := Idle, out := ActivationFailed(f.fenceBack && f.rollsBack, f.recontained))
  {
    var at := |t.incs| - 1;
    var t1 := Step(t, Proceed(f.fenceBack));
    assert t1 == t.(fence := if f.fenceBack then Some(e) else t.fence, pc := RecActRollback(at, f.fenceBack));
    var t2 := Step(t1, Proceed(f.rollsBack));
    assert t2.pc == RecRecontain(true, f.fenceBack && f.rollsBack);
  }

  lemma ReachesActivate(u: Sys, e: nat, f: Faults)
    requires Accepted(u, e, f) && u.pc == RecClear(e, |u.incs| - 1) && (f.clears || u.fence.None?)
    ensures Run(u, [Proceed(f.clears), Proceed(true), Proceed(true)])
         == u.(fence := None, incs := Admit(u.incs, |u.incs| - 1), pc := RecActivate(e, |u.incs| - 1))
  {
    ReachesMark(u, e, f);
    RunThree(u, Proceed(f.clears), Proceed(true), Proceed(true));
  }

  lemma ActivationHead(u: Sys, e: nat, f: Faults)
    requires Accepted(u, e, f) && u.pc == RecClear(e, |u.incs| - 1) && (f.clears || u.fence.None?)
    ensures var at := |u.incs| - 1; var t := u.(fence := None, incs := Admit(u.incs, at));
            Run(u, [Proceed(f.clears), Proceed(true), Proceed(true)] + [Proceed(true)])
            == if f.before != [] then t.(pc := RecActFence(e, at))
               else
                 var w := Apply(World(u.live.rt, u.next), OpRecover(u.live.capability, e));
                 t.(live := u.live.(rt := w.rt), next := w.next, pc := RecRotate(e + 1))
  {
    var at := |u.incs| - 1;
    var t := Run(u, [Proceed(f.clears), Proceed(true), Proceed(true)]);
    ReachesActivate(u, e, f);
    RunLast(u, [Proceed(f.clears), Proceed(true), Proceed(true)], Proceed(true));
    ActivateStep(t, e, at, f.before);
  }

  lemma ActivationPath(u: Sys, e: nat, f: Faults)
    requires Accepted(u, e, f) && u.pc == RecClear(e, |u.incs| - 1)
    requires (f.clears || u.fence.None?) && f.before != []
    ensures var incs := Admit(u.incs, |u.incs| - 1);
            Run(u, [Proceed(f.clears), Proceed(true), Proceed(true)] + [Proceed(true)]
                   + [Proceed(f.fenceBack)] + [Proceed(f.rollsBack)] + [Proceed(f.recontained)])
            == u.(fence := FenceBack(e, f),
                  incs := if f.rollsBack then SetState(incs, |incs| - 1, IncidentState.Contained) else incs,
                  pc := Idle, out := ActivationFailed(f.fenceBack && f.rollsBack, f.recontained))
  {
    var head := [Proceed(f.clears), Proceed(true), Proceed(true)] + [Proceed(true)];
    ActivationHead(u, e, f);
    Compensates(Run(u, head), e, f);
    RunLast(u, head, Proceed(f.fenceBack));
    RunLast(u, head + [Proceed(f.fenceBack)], Proceed(f.rollsBack));
    RunLast(u, head + [Proceed(f.fenceBack)] + [Proceed(f.rollsBack)], Proceed(f.recontained));
  }

  lemma RotationEnd(t: Sys, e: nat, after: seq<Op>)
    requires t.live.Up? && t.pc == RecRotate(e + 1) && Stops(after)
    ensures var w := Apply(ApplyAll(World(t.live.rt, t.next), after), OpRotate);
            Run(t, Threads(after) + [Proceed(true)])
            == t.(live := Up(w.rt, w.rt.capability), next := w.next, pc := Idle, out := RecoverReturned(e + 1))
  {
    RunThreads(t, after);
    RunLast(t, Threads(after), Proceed(true));
  }

  lemma SuccessPath(u: Sys, e: nat, f: Faults)
    requires Accepted(u, e, f) && u.pc == RecClear(e, |u.incs| - 1)
    requires (f.clears || u.fence.None?) && f.before == []
    ensures var w := Activated(World(u.live.rt, u.next), u.live.capability, e, f.after);
            Run(u, [Proceed(f.clears), Proceed(true), Proceed(true)] + [Proceed(true)] + Threads(f.after)
                + [Proceed(true)])
            == u.(fence := None, incs := Admit(u.incs, |u.incs| - 1), live := Up(w.rt, w.rt.capability), next := w.next,
                  pc := Idle, out := RecoverReturned(e + 1))
  {
    var head := [Proceed(f.clears), Proceed(true), Proceed(true)] + [Proceed(true)];
    ActivationHead(u, e, f);
    RotationEnd(Run(u, head), e, f.after);
    RunAppend(u, head, Threads(f.after) + [Proceed(true)]);
    assert head + Threads(f.after) + [Proceed(true)] == head + (Threads(f.after) + [Proceed(true)]);
  }

  lemma {:induction false} RestResult(u: Sys, e: nat, f: Faults)
    requires Accepted(u, e, f) && u.pc == RecClear(e, |u.incs| - 1)
    ensures Run(u, RestActs(u.fence, f)) == AfterChecks(u, e, f).(pc := Idle)
  {
    if !f.clears && u.fence.Some? {
      UnclearedPath(u, e, f);
    } else if !f.released {
      UnreleasedPath(u, e, f);
    } else if !f.admits {
      StoragePath(u, e, f);
    } else if f.before != [] {
      ActivationPath(u, e, f);
    } else {
      SuccessPath(u, e, f);
    }
  }

  /** Every call of `recover` is a run of the protocol, and this is where it ends. */
  lemma {:induction false} RecoverResult(s: Sys, auth: Auth, f: Faults)
    requires Owned(s) && s.pc.Idle? && s.live.Up? && f.Valid()
    ensures Run(s, RecoverActs(s, auth, f)) == Recovered(s, auth, f)
  {
    RunOne(s, CallRecover(auth));
    if Admissible(s, auth) {
      var called := s.(pc := RecClear(auth.epoch, |s.incs| - 1));
      var u := Disturbed(called, f.before);
      RunAppend(s, [CallRecover(auth)], Threads(f.before));
      RunThreads(called, f.before);
      StopsCount(World(s.live.rt, s.next), f.before);
      RunAppend(s, [CallRecover(auth)] + Threads(f.before), RestActs(s.fence, f));
      RestResult(u, auth.epoch, f);
      ChecksIgnorePc(Disturbed(s, f.before), auth.epoch, f, u.pc);
    }
  }

  lemma ChecksIgnorePc(s: Sys, e: nat, f: Faults, pc: Pc)
    requires s.live.Up? && s.incs != [] && s.pc.Idle?
    ensures AfterChecks(s.(pc := pc), e, f).(pc := Idle) == AfterChecks(s, e, f)
  {}

  // ----- what that comes to -----

  /** The authorization names the agent, its current capability and the epoch at which incident and runtime
      hold it. */
  predicate Current(s: Sys, auth: Auth)
    requires s.live.Up?
  {
    && auth.agentId == s.agent && auth.capability == s.live.capability
    && s.incs != [] && s.incs[|s.incs| - 1].state in {IncidentState.Contained, ProofDegraded}
    && auth.epoch == s.incs[|s.incs| - 1].epoch
    && s.live.rt.state == RuntimeState.Contained && s.live.rt.epoch == auth.epoch
  }

  /** What one call of `recover` leaves, whatever fails and whoever interferes. It returns exactly when the
      authorization is current, every write and provider answers and nobody has touched the runtime; then
      the fence is gone, the incident RECOVERED at the next epoch, the runtime active there under a newly
      drawn capability, up to what other threads have done since. Otherwise the call has not touched the
      runtime, and each durable record is as it was or put back, if that could be written. */
  predicate RecoveryLeaves(s: Sys, auth: Auth, f: Faults, t: Sys)
    requires s.live.Up?
  {
    var n, e := |s.incs|, auth.epoch;
    if !Current(s, auth) then t == s.(out := RecoverRejected)
    else
      var last, back := s.incs[n - 1], if f.fenceBack then Some(e) else None;
      var admitted := last.(state := IncidentState.Recovered, recovery := Some(e + 1));
      && t.live.Up?
      && (if !f.clears && s.fence.Some? then
            t.out == ClearFailed && t.fence == s.fence && t.incs == s.incs
          else if !f.released then
            t.out == ReleaseFailed(f.fenceBack) && t.fence == back && t.incs == s.incs
          else if !f.admits then
            t.out == StorageFailed(f.fenceBack, f.recontained) && t.fence == back && t.incs == s.incs
          else if f.before != [] then
            && t.out == ActivationFailed(f.fenceBack && f.rollsBack, f.recontained) && t.fence == back
            && t.incs == s.incs[n - 1 := if f.rollsBack then admitted.(state := IncidentState.Contained) else admitted]
          else
            t.out == RecoverReturned(e + 1) && t.fence.None? && t.incs == s.incs[n - 1 := admitted])
      && (t.out.RecoverReturned? ==>
            && t.live.capability == t.live.rt.capability >= s.next && t.live.rt.agentId == s.agent
            && t.live.rt.epoch == e + 1 + |f.after| && (f.after == [] ==> t.live.rt.state == Active))
      && (!t.out.RecoverReturned? ==>
            && t.live.capability == s.live.capability && t.live.rt == ApplyAll(World(s.live.rt, s.next), f.before).rt
            && t.live.rt.epoch == e + |f.before| && t.live.rt.state != Active)
  }

  lemma ActivatedAs(w: World, e: nat, after: seq<Op>)
    requires w.rt.state == RuntimeState.Contained && w.rt.epoch == e && Stops(after)
    ensures var rt := Activated(w, w.rt.capability, e, after).rt;
            && rt.capability >= w.next && rt.agentId == w.rt.agentId && rt.epoch == e + 1 + |after|
            && (after == [] ==> rt.state == Active)
  {
    StopsCount(Apply(w, OpRecover(w.rt.capability, e)), after);
  }

  lemma {:induction false} CallLeaves(s: Sys, auth: Auth, f: Faults)
    requires Owned(s) && s.pc.Idle? && s.live.Up? && s.live.rt.agentId == s.agent && f.Valid()
    ensures RecoveryLeaves(s, auth, f, Recovered(s, auth, f))
  {
    var w := World(s.live.rt, s.next);
    StopsCount(w, f.before);
    if Current(s, auth) && f.before == [] {
      ActivatedAs(w, auth.epoch, f.after);
    }
  }

  /** Every call of `recover` leaves that. */
  lemma {:induction false} RecoverLeaves(s: Sys, auth: Auth, f: Faults)
    requires Owned(s) && s.pc.Idle? && s.live.Up? && s.live.rt.agentId == s.agent && f.Valid()
    ensures RecoveryLeaves(s, auth, f, Run(s, RecoverActs(s, auth, f)))
  {
    RecoverResult(s, auth, f);
    CallLeaves(s, auth, f);
  }
}
