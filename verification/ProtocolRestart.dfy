/** Restart: which pairs of durable records `register` accepts, and which runs only leave such pairs. */
module ProtocolRestart {
  import opened Wrappers
  import opened RuntimeModel
  import opened IncidentRegistry
  import opened Protocol
  import opened ProtocolSafety
  import opened RegisterRuns

  // ----- what register accepts -----

  /** Register, with every write succeeding. Steps after the last one do nothing. */
  function RegisterRun(supplied: Option<Rt>): seq<Action> {
    RegisterActs(supplied, true, true, true)
  }

  /** The latest incident is RECOVERED and no fence stands: activation may or may not have happened. */
  predicate Ambiguous(s: Sys) {
    s.fence.None? && s.incs != [] && Latest(s.incs).value.state == Recovered
  }

  /** The fence, if any, agrees with the latest incident, or repairs it. */
  predicate Coherent(s: Sys) {
    s.fence.None? || s.incs == [] ||
    var last, f := Latest(s.incs).value, s.fence.value;
    if last.state == Recovered then
      last.epoch == f || (last.recovery.Some? && f > last.recovery.value && !Known(s.incs, IncidentId(s.agent, f)))
    else last.epoch == f
  }

  predicate Stopped(s: Sys) {
    s.pc.Idle? && s.live.Down? && s.agent != ""
  }

  /** The epoch at which a coherent pair holds the agent. */
  function HoldingEpoch(s: Sys): nat
    requires Marked(s)
  {
    if s.fence.Some? then s.fence.value else Latest(s.incs).value.epoch
  }

  // ----- one call of `register`, whatever fails -----

  /** The fence says more than the incidents: no incident at all, or one that is over. */
  predicate Repairs(s: Sys) {
    s.fence.Some? && (s.incs == [] || s.incs[|s.incs| - 1].state == Recovered)
  }

  /** A recovered incident and a fence that neither is its own nor later than its recovery, or whose record
      is taken. */
  predicate Conflicts(s: Sys) {
    s.fence.Some? && s.incs != [] && s.incs[|s.incs| - 1].state == Recovered &&
    var last, f := s.incs[|s.incs| - 1], s.fence.value;
    last.epoch != f && (f <= last.epoch + 1 || exists i :: 0 <= i < |s.incs| && s.incs[i].id == IncidentId(s.agent, f))
  }

  /** The incidents once the fence has repaired them. */
  function Repaired(s: Sys): seq<Inc> {
    var n := |s.incs|;
    if !Repairs(s) then s.incs
    else if n > 0 && s.incs[n - 1].epoch == s.fence.value then
      s.incs[n - 1 := s.incs[n - 1].(state := IncidentState.Contained)]
    else s.incs + [Inc(IncidentId(s.agent, s.fence.value), IncidentState.Contained, s.fence.value, None)]
  }

  /** A durable epoch admits the runtime: a new one always, a supplied one if it is not executable and does
      not claim another epoch. */
  predicate Fits(supplied: Option<Rt>, epoch: nat) {
    supplied.None?
    || (supplied.value.state != Active && (supplied.value.state == RuntimeState.Contained ==>
          supplied.value.epoch == epoch))
  }

  /** The runtime as the table entry gets it: a new one is restored to the epoch that holds the agent, a
      supplied one stays as it is, and either gets a newly drawn capability. */
  function Entered(s: Sys, supplied: Option<Rt>, holding: Option<nat>): Live {
    if supplied.Some? then Up(supplied.value.(capability := s.next), s.next)
    else if holding.None? then Up(Rt(s.agent, Active, 0, s.next, s.next + 2), s.next + 2)
    else Up(Rt(s.agent, RuntimeState.Contained, holding.value, s.next + 2, s.next + 3), s.next + 3)
  }

  /** With no fence, the incident that still holds the agent gives it one. */
  predicate Refences(s: Sys) {
    s.fence.None? && s.incs != []
  }

  /** Every durable epoch admits the runtime: the fence's, and that of the latest incident as repaired. A new
      runtime is held at the first and must meet the second. */
  predicate Meets(s: Sys, supplied: Option<Rt>) {
    && (s.fence.Some? ==> Fits(supplied, s.fence.value))
    && (Repaired(s) != [] ==>
          var e := Repaired(s)[|Repaired(s)| - 1].epoch;
          Fits(supplied, e) && (supplied.None? && s.fence.Some? ==> s.fence.value == e))
  }

  /** The runtime a call registers, and the identities drawn for it. */
  function Brought(s: Sys, supplied: Option<Rt>): World {
    if supplied.Some? then World(supplied.value, s.next)
    else World(Rt(s.agent, Active, 0, s.next, s.next + 1), s.next + 2)
  }

  /** The call up to its first write. */
  function Calls(s: Sys, supplied: Option<Rt>): Sys {
    var w := Brought(s, supplied);
    s.(pc := RegStart(w.rt, supplied.Some?, s.fence), next := w.next)
  }

  lemma CallsAlike(s: Sys, supplied: Option<Rt>)
    ensures var u := Calls(s, supplied);
            Conflicts(u) == Conflicts(s) && Repairs(u) == Repairs(s) && Repaired(u) == Repaired(s)
  {}

  /** Whatever fails, the call is a run that ends as its preparation does. */
  lemma CallPrepares(s: Sys, supplied: Option<Rt>, starts: bool, admits: bool, settles: bool) returns (p: Sys)
    requires Stopped(s) && (supplied.Some? ==> Drawn(s, supplied.value))
    ensures p == Prepared(Calls(s, supplied), Brought(s, supplied).rt, supplied.Some?, starts, admits, settles)
    ensures Run(s, RegisterActs(supplied, starts, admits, settles)) == Finished(p)
  {
    p := Prepared(Calls(s, supplied), Brought(s, supplied).rt, supplied.Some?, starts, admits, settles);
    RegisterResult(s, supplied, starts, admits, settles);
    assert StepRegisterCall(s, supplied) == Calls(s, supplied);
  }

  // The steps of the call, one at a time.

  lemma StartLeaves(u: Sys, ok: bool, rt: Rt, supplied: bool)
    requires WellFormed(u.incs)
    ensures RegisterStart(u, ok, rt, supplied, u.fence)
         == if !Conflicts(u) && (Repairs(u) ==> ok) then u.(incs := Repaired(u), pc := RegAdmit(rt, supplied, u.fence))
            else Refuse(u)
  {}

  lemma RepairedHolds(u: Sys)
    requires WellFormed(u.incs) && u.fence.Some? && !Conflicts(u)
    ensures Repaired(u) != [] && Repaired(u)[|Repaired(u)| - 1].Standing()
  {}

  /** The fence, and then the incident that agrees with it or not, over a supplied runtime. */
  lemma SuppliedMeets(v: Sys, admits: bool, settles: bool, rt: Rt, f: nat)
    requires v.fence == Some(f) && v.incs != [] && v.incs[|v.incs| - 1].Standing()
    ensures var t := RegisterFenced(v, admits, rt, true, Some(f)); var e := v.incs[|v.incs| - 1].epoch;
            && (t.pc.Idle? || t.pc.RegContained?)
            && (if t.pc.Idle? then t else StepRegister(t, settles))
               == if Fits(Some(rt), f) && Fits(Some(rt), e) then v.(pc := RegInstall(rt, true)) else Refuse(v)
  {}

  /** And over a new one, which the fence contains. */
  lemma NewMeets(v: Sys, admits: bool, settles: bool, rt: Rt, f: nat)
    requires v.fence == Some(f) && v.incs != [] && v.incs[|v.incs| - 1].Standing() && rt.state == Active
    ensures var t := RegisterFenced(v, admits, rt, false, Some(f)); var u := v.(next := v.next + 1);
            && t.pc.RegContained?
            && StepRegister(t, settles)
               == if v.incs[|v.incs| - 1].epoch == f
                  then u.(pc := RegInstall(rt.(state := RuntimeState.Contained, epoch := f, proof := v.next), false))
                  else Refuse(u)
  {}

  lemma NewMeetsAtFence(s: Sys)
    requires WellFormed(s.incs) && s.fence.Some? && !Conflicts(s)
    ensures Repaired(s) != []
    ensures Meets(s, None) <==> Repaired(s)[|Repaired(s)| - 1].epoch == s.fence.value
  {
    RepairedHolds(s);
  }

  /** A call over a fence goes on from its first write. */
  lemma FencedGoesOn(u: Sys, v: Sys, rt: Rt, supplied: bool, starts: bool, admits: bool, settles: bool)
    requires u.pc == RegStart(rt, supplied, u.fence) && v == RegisterStart(u, starts, rt, supplied, u.fence)
    requires !v.pc.Idle?
    ensures var t := RegisterFenced(v, admits, rt, supplied, u.fence);
            Prepared(u, rt, supplied, starts, admits, settles)
            == if t.pc.Idle? || t.pc.RegInstall? then t else StepRegister(t, settles)
  {}

  lemma NewPrepared(u: Sys, rt: Rt, starts: bool, admits: bool, settles: bool)
    requires WellFormed(u.incs) && u.pc == RegStart(rt, false, u.fence) && u.fence.Some? && rt.state == Active
    requires !Conflicts(u) && (Repairs(u) ==> starts)
    ensures var held := rt.(state := RuntimeState.Contained, epoch := u.fence.value, proof := u.next);
            var v := u.(incs := Repaired(u), next := u.next + 1);
            Prepared(u, rt, false, starts, admits, settles)
            == if Repaired(u)[|Repaired(u)| - 1].epoch == u.fence.value then v.(pc := RegInstall(held, false))
               else Refuse(v)
  {
    var v := u.(incs := Repaired(u), pc := RegAdmit(rt, false, u.fence));
    StartLeaves(u, starts, rt, false);
    RepairedHolds(u);
    NewMeets(v, admits, settles, rt, u.fence.value);
    FencedGoesOn(u, v, rt, false, starts, admits, settles);
  }

  // The ways a call can go. `p` is where it stands when it is refused or about to install.

  lemma FencedSupplied(s: Sys, given: Rt, starts: bool, admits: bool, settles: bool) returns (p: Sys)
    requires Safe(s) && Stopped(s) && Drawn(s, given) && s.fence.Some?
    requires !Conflicts(s) && (Repairs(s) ==> starts)
    ensures p.next == s.next
    ensures p == if Meets(s, Some(given)) then s.(incs := Repaired(s), pc := RegInstall(given, true))
                 else s.(incs := Repaired(s), out := RegisterRaised)
    ensures Run(s, RegisterActs(Some(given), starts, admits, settles)) == Finished(p)
  {
    p := CallPrepares(s, Some(given), starts, admits, settles);
    var u := Calls(s, Some(given));
    var v := u.(incs := Repaired(s), pc := RegAdmit(given, true, s.fence));
    StartLeaves(u, starts, given, true);
    RepairedHolds(s);
    SuppliedMeets(v, admits, settles, given, s.fence.value);
    FencedGoesOn(u, v, given, true, starts, admits, settles);
  }

  lemma FencedNewLeaves(s: Sys, starts: bool, admits: bool, settles: bool) returns (p: Sys)
    requires WellFormed(s.incs) && s.fence.Some? && !Conflicts(s) && (Repairs(s) ==> starts)
    ensures var held := Rt(s.agent, RuntimeState.Contained, s.fence.value, s.next + 2, s.next + 1);
            p == if Meets(s, None) then s.(incs := Repaired(s), next := s.next + 3, pc := RegInstall(held, false))
                 else Refuse(s.(incs := Repaired(s), next := s.next + 3))
    ensures p == Prepared(Calls(s, None), Brought(s, None).rt, false, starts, admits, settles)
  {
    var rt := Rt(s.agent, Active, 0, s.next, s.next + 1);
    var u := s.(pc := RegStart(rt, false, s.fence), next := s.next + 2);
    assert Calls(s, None) == u && Brought(s, None).rt == rt;
    CallsAlike(s, None);
    NewMeetsAtFence(s);
    NewPrepared(u, rt, starts, admits, settles);
    p := Prepared(u, rt, false, starts, admits, settles);
  }

  lemma FencedNew(s: Sys, starts: bool, admits: bool, settles: bool) returns (p: Sys)
    requires Safe(s) && Stopped(s) && s.fence.Some?
    requires !Conflicts(s) && (Repairs(s) ==> starts)
    ensures var held := Rt(s.agent, RuntimeState.Contained, s.fence.value, s.next + 2, s.next + 1);
            p == if Meets(s, None) then s.(incs := Repaired(s), next := s.next + 3, pc := RegInstall(held, false))
                 else s.(incs := Repaired(s), next := s.next + 3, out := RegisterRaised)
    ensures Run(s, RegisterActs(None, starts, admits, settles)) == Finished(p)
  {
    p := FencedNewLeaves(s, starts, admits, settles);
    var q := CallPrepares(s, None, starts, admits, settles);
    assert p == q;
  }

  lemma FencedUnwritten(s: Sys, supplied: Option<Rt>, starts: bool, admits: bool, settles: bool) returns (p: Sys)
    requires Safe(s) && Stopped(s) && (supplied.Some? ==> Drawn(s, supplied.value)) && s.fence.Some?
    requires Conflicts(s) || (Repairs(s) && !starts)
    ensures p == s.(next := Brought(s, supplied).next, out := RegisterRaised)
    ensures Run(s, RegisterActs(supplied, starts, admits, settles)) == Finished(p)
  {
    p := CallPrepares(s, supplied, starts, admits, settles);
    var u := Calls(s, supplied);
    StartLeaves(u, starts, u.pc.rt, supplied.Some?);
  }

  lemma Unmarked(s: Sys, supplied: Option<Rt>, starts: bool, admits: bool, settles: bool) returns (p: Sys)
    requires Safe(s) && Stopped(s) && (supplied.Some? ==> Drawn(s, supplied.value)) && !Marked(s)
    ensures var w := Brought(s, supplied); p == s.(pc := RegInstall(w.rt, supplied.Some?), next := w.next)
    ensures Run(s, RegisterActs(supplied, starts, admits, settles)) == Finished(p)
  {
    p := CallPrepares(s, supplied, starts, admits, settles);
  }

  /** The incident that holds the agent, met by a supplied runtime or by a new one, which it contains. */
  lemma IncidentMeets(v: Sys, rt: Rt, supplied: bool)
    requires v.incs != [] && (!supplied ==> rt.state == Active)
    ensures var e := v.incs[|v.incs| - 1].epoch;
            RegisterContained(v, rt, supplied)
            == if !supplied then
                 v.(next := v.next + 1,
                    pc := RegInstall(rt.(state := RuntimeState.Contained, epoch := e, proof := v.next), false))
               else if Fits(Some(rt), e) then v.(pc := RegInstall(rt, true))
               else Refuse(v)
  {}

  lemma UnfencedPrepared(u: Sys, rt: Rt, supplied: bool, starts: bool, admits: bool, settles: bool)
    requires WellFormed(u.incs) && u.pc == RegStart(rt, supplied, None) && Refences(u) && !Ambiguous(u)
    ensures var v := u.(fence := Some(u.incs[|u.incs| - 1].epoch), pc := RegContained(rt, supplied));
            Prepared(u, rt, supplied, starts, admits, settles)
            == if admits then RegisterContained(v, rt, supplied) else Refuse(u)
  {
    var v := RegisterStart(u, starts, rt, supplied, None);
    assert v == u.(pc := RegAdmit(rt, supplied, None));
    assert RegisterFenced(v, admits, rt, supplied, None) == RegisterAdmit(v, admits, rt, supplied, None);
  }

  lemma Unfenced(s: Sys, supplied: Option<Rt>, starts: bool, admits: bool, settles: bool) returns (p: Sys)
    requires Safe(s) && Stopped(s) && (supplied.Some? ==> Drawn(s, supplied.value)) && Refences(s) && !Ambiguous(s)
    ensures var w := Brought(s, supplied); var e := s.incs[|s.incs| - 1].epoch;
            p == if !admits then s.(next := w.next, out := RegisterRaised)
                 else if supplied.None? then
                   s.(fence := Some(e), next := s.next + 3,
                      pc := RegInstall(Rt(s.agent, RuntimeState.Contained, e, s.next + 2, s.next + 1), false))
                 else if Fits(supplied, e) then s.(fence := Some(e), pc := RegInstall(w.rt, true))
                 else s.(fence := Some(e), out := RegisterRaised)
    ensures Run(s, RegisterActs(supplied, starts, admits, settles)) == Finished(p)
  {
    p := CallPrepares(s, supplied, starts, admits, settles);
    var u := Calls(s, supplied);
    UnfencedPrepared(u, u.pc.rt, supplied.Some?, starts, admits, settles);
    IncidentMeets(u.(fence := Some(s.incs[|s.incs| - 1].epoch), pc := RegContained(u.pc.rt, supplied.Some?)),
                  u.pc.rt, supplied.Some?);
  }

  lemma Unsettled(s: Sys, supplied: Option<Rt>, starts: bool, admits: bool, settles: bool) returns (p: Sys)
    requires Safe(s) && Stopped(s) && (supplied.Some? ==> Drawn(s, supplied.value)) && Ambiguous(s)
    ensures var w := Brought(s, supplied); var last := s.incs[|s.incs| - 1];
            var back := s.incs[|s.incs| - 1 := last.(state := IncidentState.Contained)];
            p == if supplied.Some? && w.rt.state == RuntimeState.Contained && w.rt.epoch == last.epoch then
                   if !admits then s.(out := RegisterRaised)
                   else if !settles then s.(incs := back, out := RegisterRaised)
                   else s.(fence := Some(last.epoch), incs := back, pc := RegInstall(w.rt, true))
                 else if supplied.Some? && w.rt.state == Active && w.rt.epoch == last.epoch + 1 then
                   s.(pc := RegInstall(w.rt, true))
                 else s.(next := w.next, out := RegisterRaised)
    ensures Run(s, RegisterActs(supplied, starts, admits, settles)) == Finished(p)
  {
    p := CallPrepares(s, supplied, starts, admits, settles);
  }

  /** When one call of `register` returns, and what it leaves, for an agent that is not in the table.

      Unless the pair of records is ambiguous, it returns exactly when fence and incident do not conflict,
      the writes it makes succeed and every durable epoch admits the runtime; without a durable mark that
      is always so. The fence repairs the incidents, an incident that holds the agent renews the fence, and
      nothing else durable changes. An ambiguous pair is settled by the runtime supplied. */
  predicate RegistrationLeaves(s: Sys, supplied: Option<Rt>, starts: bool, admits: bool, settles: bool,
                               returned: bool, t: Sys)
  {
    var n := |s.incs|;
    && (!Marked(s) ==> returned)
    && (!Ambiguous(s) ==>
          && (returned <==>
                !Conflicts(s) && Meets(s, supplied) && (Repairs(s) ==> starts) && (Refences(s) ==> admits))
          && t.fence == (if Refences(s) && admits then Some(s.incs[n - 1].epoch) else s.fence)
          && t.incs == (if !Conflicts(s) && starts then Repaired(s) else s.incs)
          && t.live == if returned
                       then Entered(s, supplied, if Refences(s) then Some(s.incs[n - 1].epoch) else s.fence) else Down)
    && (Ambiguous(s) ==>
          var last := s.incs[n - 1];
          var aborts := supplied.Some? && supplied.value.state == RuntimeState.Contained
            && supplied.value.epoch == last.epoch;
          var attests := supplied.Some? && supplied.value.state == Active && supplied.value.epoch == last.epoch + 1;
          && (returned <==> attests || (aborts && admits && settles))
          && t.fence == (if aborts && admits && settles then Some(last.epoch) else None)
          && t.incs == (if aborts && admits then s.incs[n - 1 := last.(state := IncidentState.Contained)] else s.incs)
          && t.live == if returned then Entered(s, supplied, None) else Down)
  }

  lemma Finishes(p: Sys)
    requires p.pc.Idle? || p.pc.RegInstall?
    ensures Finished(p)
         == if p.pc.Idle? then p
            else p.(live := Up(p.pc.rt.(capability := p.next), p.next), next := p.next + 1, pc := Idle,
                    out := RegisterReturned)
  {}

  lemma {:induction false} FencedRegistration(s: Sys, supplied: Option<Rt>, starts: bool, admits: bool, settles: bool)
    requires Safe(s) && Stopped(s) && (supplied.Some? ==> Drawn(s, supplied.value)) && s.fence.Some?
    ensures var t := Run(s, RegisterActs(supplied, starts, admits, settles));
            && t.out == (if !Conflicts(s) && Meets(s, supplied) && (Repairs(s) ==> starts) then RegisterReturned
                         else RegisterRaised)
            && t.pc.Idle? && t.agent == s.agent && t.fence == s.fence
            && t.incs == (if !Conflicts(s) && starts then Repaired(s) else s.incs)
            && t.live == if t.out == RegisterReturned then Entered(s, supplied, s.fence) else Down
  {
    var p;
    if Conflicts(s) || (Repairs(s) && !starts) {
      p := FencedUnwritten(s, supplied, starts, admits, settles);
    } else if supplied.Some? {
      p := FencedSupplied(s, supplied.value, starts, admits, settles);
    } else {
      p := FencedNew(s, starts, admits, settles);
    }
    Finishes(p);
  }

  lemma {:induction false} UnfencedRegistration(s: Sys, supplied: Option<Rt>, starts: bool, admits: bool, settles: bool)
    requires Safe(s) && Stopped(s) && (supplied.Some? ==> Drawn(s, supplied.value)) && Refences(s) && !Ambiguous(s)
    ensures var t := Run(s, RegisterActs(supplied, starts, admits, settles)); var e := s.incs[|s.incs| - 1].epoch;
            && t.out == (if admits && Fits(supplied, e) then RegisterReturned else RegisterRaised)
            && t.pc.Idle? && t.agent == s.agent && t.incs == s.incs
            && t.fence == (if admits then Some(e) else None)
            && t.live == if t.out == RegisterReturned then Entered(s, supplied, Some(e)) else Down
  {
    var p := Unfenced(s, supplied, starts, admits, settles);
    Finishes(p);
  }

  lemma {:induction false} UnsettledRegistration(s: Sys, supplied: Option<Rt>, starts: bool, admits: bool,
                                                 settles: bool)
    requires Safe(s) && Stopped(s) && (supplied.Some? ==> Drawn(s, supplied.value)) && Ambiguous(s)
    ensures var t := Run(s, RegisterActs(supplied, starts, admits, settles));
            && t.pc.Idle? && t.agent == s.agent && t.out in {RegisterReturned, RegisterRaised}
            && RegistrationLeaves(s, supplied, starts, admits, settles, t.out == RegisterReturned, t)
  {
    var p := Unsettled(s, supplied, starts, admits, settles);
    Finishes(p);
  }

  /** Whatever the device answers. */
  lemma {:induction false} RegistrationIff(s: Sys, supplied: Option<Rt>, starts: bool, admits: bool, settles: bool)
    requires Safe(s) && Stopped(s) && (supplied.Some? ==> Drawn(s, supplied.value))
    ensures var t := Run(s, RegisterActs(supplied, starts, admits, settles));
            && t.pc.Idle? && t.agent == s.agent && t.out in {RegisterReturned, RegisterRaised}
            && RegistrationLeaves(s, supplied, starts, admits, settles, t.out == RegisterReturned, t)
  {
    if !Marked(s) {
      var p := Unmarked(s, supplied, starts, admits, settles);
      Finishes(p);
    } else if Ambiguous(s) {
      UnsettledRegistration(s, supplied, starts, admits, settles);
    } else if s.fence.None? {
      UnfencedRegistration(s, supplied, starts, admits, settles);
    } else {
      FencedRegistration(s, supplied, starts, admits, settles);
    }
  }

  /** For a new runtime the conditions come down to a coherent pair. */
  lemma CoherentMeets(s: Sys)
    requires Safe(s) && s.fence.Some?
    ensures Coherent(s) <==> !Conflicts(s) && Meets(s, None)
    ensures Coherent(s) ==> HeldAt(s.(incs := Repaired(s)), s.fence.value)
  {}

  /** Restart without a supplied controller: accepted exactly when the pair is coherent and not
      ambiguous, and then the agent is held at the pair's epoch, or active if there was no mark. */
  lemma {:induction false} RestartAcceptedIff(s: Sys)
    requires Safe(s) && Stopped(s)
    ensures var t := Run(s, RegisterRun(None));
            && t.pc.Idle?
            && (t.live.Up? <==> Coherent(s) && !Ambiguous(s))
            && (t.live.Up? && Marked(s) ==>
                  && t.live.rt.state == RuntimeState.Contained && t.live.rt.epoch == HoldingEpoch(s)
                  && t.fence == Some(HoldingEpoch(s)) && HeldAt(t, HoldingEpoch(s)))
            && (t.live.Up? && !Marked(s) ==> Executable(t) && t.live.rt.epoch == 0)
  {
    RegistrationIff(s, None, true, true, true);
    if s.fence.Some? {
      CoherentMeets(s);
    }
  }

  /** An ambiguous pair is accepted with a supplied controller exactly when its runtime is contained
      at the containment epoch, which aborts the recovery, or active at the recovery epoch, which
      attests it. */
  lemma {:induction false} AmbiguousRestartAcceptedIff(s: Sys, rt: Rt)
    requires Safe(s) && Stopped(s) && Ambiguous(s)
    requires Drawn(s, rt)
    ensures var t := Run(s, RegisterRun(Some(rt))); var e := Latest(s.incs).value.epoch;
            && t.pc.Idle?
            && (t.live.Up? <==>
                  || (rt.state == RuntimeState.Contained && rt.epoch == e)
                  || (rt.CanExecute() && rt.epoch == e + 1))
            && (t.live.Up? && rt.CanExecute() ==> Executable(t) && t.incs == s.incs && t.fence.None?)
            && (t.live.Up? && !rt.CanExecute() ==>
                  HeldAt(t, e) && t.fence == Some(e) && t.live.rt.state == RuntimeState.Contained
                    && t.live.rt.epoch == e)
  {
    RegistrationIff(s, Some(rt), true, true, true);
  }

  /** A supplied runtime that is stopped but not CONTAINED is admitted by any pair, one that disagrees included,
      and the disagreement stays. */
  lemma {:induction false} HaltedIsAdmitted(s: Sys, rt: Rt)
    requires Safe(s) && Stopped(s) && Drawn(s, rt) && rt.state == Halted
    requires s.fence.Some? && s.incs != []
    requires Latest(s.incs).value.Standing() && Latest(s.incs).value.epoch != s.fence.value
    ensures var t := Run(s, RegisterRun(Some(rt)));
            && t.out == RegisterReturned && t.live == Up(rt.(capability := s.next), s.next)
            && t.fence == s.fence && t.incs == s.incs && !Coherent(t)
  {
    RegistrationIff(s, Some(rt), true, true, true);
  }
}
