/** One call of `register`, with the answers of the device spelled out, as a run of the protocol. */
module RegisterRuns {
  import opened Wrappers
  import opened RuntimeModel
  import opened Protocol

  /** The call, its three writes at most, and the installation. */
  function RegisterActs(supplied: Option<Rt>, starts: bool, admits: bool, settles: bool): seq<Action> {
    [CallRegister(supplied), Proceed(starts), Proceed(admits), Proceed(settles), Proceed(true)]
  }

  /** Registration between its call and its installation: refused, or about to install. */
  function Prepared(s: Sys, rt: Rt, supplied: bool, starts: bool, admits: bool, settles: bool): (t: Sys)
    ensures t.pc.Idle? || t.pc.RegInstall?
    ensures t.pc.Idle? ==> t.out == RegisterRaised
  {
    var t1 := RegisterStart(s, starts, rt, supplied, s.fence);
    if t1.pc.Idle? then t1
    else
      var t2 := RegisterFenced(t1, admits, rt, supplied, s.fence);
      if t2.pc.Idle? || t2.pc.RegInstall? then t2 else StepRegister(t2, settles)
  }

  function Installed(t: Sys): Sys
    requires t.pc.RegInstall?
  {
    StepRegister(t, true)
  }

  function Finished(t: Sys): Sys
    requires t.pc.Idle? || t.pc.RegInstall?
  {
    if t.pc.Idle? then t else Installed(t)
  }

  lemma PreparedRun(s: Sys, rt: Rt, supplied: bool, starts: bool, admits: bool, settles: bool)
    requires s.pc == RegStart(rt, supplied, s.fence)
    ensures Step(Step(Step(Step(s, Proceed(starts)), Proceed(admits)), Proceed(settles)), Proceed(true))
         == Finished(Prepared(s, rt, supplied, starts, admits, settles))
  {
    var t1 := Step(s, Proceed(starts));
    assert t1 == RegisterStart(s, starts, rt, supplied, s.fence);
    if !t1.pc.Idle? {
      var t2 := Step(t1, Proceed(admits));
      assert t2 == RegisterFenced(t1, admits, rt, supplied, s.fence);
      if !t2.pc.Idle? && !t2.pc.RegInstall? {
        assert Step(t2, Proceed(settles)) == StepRegister(t2, settles);
      }
    }
  }

  predicate HoldsDrawn(s: Sys, supplied: Option<Rt>) {
    supplied.Some? ==> supplied.value.proof < s.next && supplied.value.capability < s.next
  }

  /** What one call of `register` does to the agent, whatever fails. */
  function Registered(s: Sys, supplied: Option<Rt>, starts: bool, admits: bool, settles: bool): Sys {
    var t := StepRegisterCall(s, supplied);
    if t.pc.RegStart? then Finished(Prepared(t, t.pc.rt, supplied.Some?, starts, admits, settles)) else t
  }

  /** Every call of `register` is a run of the protocol, and this is where it ends. */
  lemma {:induction false} RegisterResult(s: Sys, supplied: Option<Rt>, starts: bool, admits: bool, settles: bool)
    requires s.pc.Idle? && HoldsDrawn(s, supplied)
    ensures Run(s, RegisterActs(supplied, starts, admits, settles)) == Registered(s, supplied, starts, admits, settles)
  {
    RunFive(s, CallRegister(supplied), Proceed(starts), Proceed(admits), Proceed(settles), Proceed(true));
    var t := Step(s, CallRegister(supplied));
    if t.pc.RegStart? {
      PreparedRun(t, t.pc.rt, supplied.Some?, starts, admits, settles);
    }
  }

  /** A call that is refused before it looks at anything durable. */
  lemma RefusedAtOnce(s: Sys, supplied: Option<Rt>, starts: bool, admits: bool, settles: bool)
    requires s.pc.Idle? && HoldsDrawn(s, supplied)
    requires s.live.Up? || s.agent == "" || (supplied.Some? && supplied.value.agentId != s.agent)
    ensures Run(s, RegisterActs(supplied, starts, admits, settles)) == s.(out := RegisterRaised)
  {
    RegisterResult(s, supplied, starts, admits, settles);
  }
}
