/** The containment, crash and recovery protocol of one agent, one durable write, enforcer call or
    runtime transition at a time.
    Source: `ContainmentService` in src/agent_containment/control.py over the fence registry, the
    incident registry and the runtime. */
module Protocol {
  import opened Wrappers
  import opened RuntimeModel
  import opened IncidentRegistry

  /** What the protocol reads of an incident record. */
  datatype Inc = Inc(id: string, state: IncidentState, epoch: nat, recovery: Option<nat>) {
    /** `incident.state in (CONTAINED, PROOF_DEGRADED)` */
    predicate Standing() {
      state == IncidentState.Contained || state == ProofDegraded
    }
  }

  datatype Auth = Auth(agentId: string, epoch: nat, capability: Id)

  /** The agent's entry in the service's own table, which a crash wipes out. */
  datatype Live = Down | Up(rt: Rt, capability: Id)

  /** Where the operation that holds the service lock stands. */
  datatype Pc =
    | Idle
    // contain
    | ContainFence(target: nat)
    | ContainRuntime(target: nat)
    | ContainReport(target: nat)
    | ContainRecord(target: nat, reported: nat)
    | ContainAudit(target: nat)
    | ContainDegrade(at: nat)
    // recover
    | RecClear(epoch: nat, at: nat)
    | RecRelease(epoch: nat, at: nat)
    | RecReleaseFence(epoch: nat)
    | RecMark(epoch: nat, at: nat)
    | RecMarkFence(epoch: nat)
    | RecMarkRollback(fenceBack: bool)
    | RecActivate(epoch: nat, at: nat)
    | RecActFence(epoch: nat, at: nat)
    | RecActRollback(at: nat, fenceBack: bool)
    | RecRecontain(activation: bool, writesBack: bool)
    | RecRotate(recovered: nat)
    // register
    | RegStart(rt: Rt, supplied: bool, fence: Option<nat>)
    | RegAdmit(rt: Rt, supplied: bool, fence: Option<nat>)
    | RegPrepare(rt: Rt, epoch: nat)
    | RegContained(rt: Rt, supplied: bool)
    | RegInstall(rt: Rt, supplied: bool)

  /** How the last completed operation ended. `writesBack`: every compensating write succeeded. */
  datatype Outcome =
    | Nothing
    | ContainReturned
    | ContainRaised
    | RegisterReturned
    | RegisterRaised
    | RecoverReturned(epoch: nat)
    | RecoverRejected
    | ClearFailed
    | ReleaseFailed(fenceBack: bool)
    | StorageFailed(writesBack: bool, recontained: bool)
    | ActivationFailed(writesBack: bool, recontained: bool)

  datatype Sys = Sys(
    agent: string,
    fence: Option<nat>,
    incs: seq<Inc>,
    live: Live,
    pc: Pc,
    next: Id,
    out: Outcome)

  datatype Action =
    | CallContain
    | CallRecover(auth: Auth)
    | CallRegister(supplied: Option<Rt>)
    | Unregister
    // The operation in progress takes its next step; `ok` says how the device or provider answers.
    | Proceed(ok: bool)
    // Threads that hold only the runtime's lock, or only the incident registry's.
    | Halt
    | ContainDirectly
    | AttachProof(at: nat, ok: bool)
    // Identities drawn for other agents of the same process, or for this agent's tokens.
    | DrawElsewhere(drawn: nat)
    // The process dies and a new one starts.
    | Crash

  function Latest(incs: seq<Inc>): Option<Inc> {
    if incs == [] then None else Some(incs[|incs| - 1])
  }

  predicate Known(incs: seq<Inc>, id: string) {
    exists i :: 0 <= i < |incs| && incs[i].id == id
  }

  function Find(incs: seq<Inc>, id: string): (k: nat)
    requires Known(incs, id)
    ensures k < |incs| && incs[k].id == id
  {
    if incs[0].id == id then 0
    else
      assert Known(incs[1..], id) by {
        var i :| 0 <= i < |incs| && incs[i].id == id;
        assert incs[1..][i - 1].id == id;
      }
      1 + Find(incs[1..], id)
  }

  function Recorded(agent: string, incs: seq<Inc>, target: nat, epoch: nat): seq<Inc> {
    incs + [Inc(IncidentId(agent, target), IncidentState.Contained, epoch, None)]
  }

  function SetState(incs: seq<Inc>, at: nat, state: IncidentState): seq<Inc>
    requires at < |incs|
  {
    incs[at := incs[at].(state := state)]
  }

  function Admit(incs: seq<Inc>, at: nat): seq<Inc>
    requires at < |incs|
  {
    incs[at := incs[at].(state := Recovered, recovery := Some(incs[at].epoch + 1))]
  }

  // ----- one step -----

  function Step(s: Sys, a: Action): Sys {
    match a
    case CallContain =>
      if s.pc.Idle? && s.live.Up? then s.(pc := ContainFence(s.live.rt.epoch + 1)) else s
    case CallRecover(auth) =>
      if !s.pc.Idle? || s.live.Down? then s
      else if Admissible(s, auth) then s.(pc := RecClear(auth.epoch, |s.incs| - 1))
      else s.(out := RecoverRejected)
    case CallRegister(supplied) => StepRegisterCall(s, supplied)
    case Unregister => if s.pc.Idle? then s.(live := Down) else s
    case Proceed(ok) =>
      if s.pc.Idle? then s
      else if Registering(s.pc) then StepRegister(s, ok)
      else if s.live.Down? then s
      else if Containing(s.pc) then StepContain(s, ok)
      else StepRecover(s, ok)
    case Halt =>
      if s.live.Up? then s.(live := s.live.(rt := s.live.rt.Halt(s.next)), next := s.next + 1) else s
    case ContainDirectly =>
      if s.live.Up? then s.(live := s.live.(rt := s.live.rt.Contain(s.next)), next := s.next + 1) else s
    case AttachProof(at, ok) =>
      if ok && at < |s.incs| && s.incs[at].state != Recovered
      then s.(incs := SetState(s.incs, at, IncidentState.Contained)) else s
    case DrawElsewhere(drawn) => s.(next := s.next + drawn)
    case Crash => s.(live := Down, pc := Idle)
  }

  predicate Containing(pc: Pc) {
    pc.ContainFence? || pc.ContainRuntime? || pc.ContainReport? || pc.ContainRecord? || pc.ContainAudit?
      || pc.ContainDegrade?
  }

  predicate Registering(pc: Pc) {
    pc.RegStart? || pc.RegAdmit? || pc.RegPrepare? || pc.RegContained? || pc.RegInstall?
  }

  predicate Recovering(pc: Pc) {
    !pc.Idle? && !Containing(pc) && !Registering(pc)
  }

  function StepContain(s: Sys, ok: bool): Sys
    requires s.live.Up? && Containing(s.pc)
  {
    match s.pc
    case ContainFence(target) =>
      s.(fence := if ok then Some(target) else s.fence, pc := ContainRuntime(target))
    case ContainRuntime(target) =>
      s.(live := s.live.(rt := s.live.rt.Contain(s.next)), next := s.next + 1, pc := ContainReport(target))
    case ContainReport(target) =>
      s.(pc := ContainRecord(target, s.live.rt.epoch))
    case ContainRecord(target, reported) =>
      s.(incs := if ok && !Known(s.incs, IncidentId(s.agent, target))
                 then Recorded(s.agent, s.incs, target, reported) else s.incs,
         pc := ContainAudit(target))
    case ContainAudit(target) =>
      var id := IncidentId(s.agent, target);
      if !ok && Known(s.incs, id) then s.(pc := ContainDegrade(Find(s.incs, id)))
      else s.(pc := Idle, out := ContainReturned)
    case ContainDegrade(at) =>
      if ok && at < |s.incs| then s.(incs := SetState(s.incs, at, ProofDegraded), pc := Idle, out := ContainReturned)
      else s.(pc := Idle, out := ContainRaised)
  }

  /** The checks `recover` makes before it touches anything. */
  predicate Admissible(s: Sys, auth: Auth)
    requires s.live.Up?
  {
    var last := Latest(s.incs);
    && auth.agentId == s.agent
    && auth.capability == s.live.capability
    && last.Some? && last.value.Standing()
    && auth.epoch == last.value.epoch
    && s.live.rt.state == RuntimeState.Contained
    && s.live.rt.epoch == last.value.epoch
  }

  function StepRecover(s: Sys, ok: bool): Sys
    requires s.live.Up? && Recovering(s.pc)
  {
    match s.pc
    case RecClear(epoch, at) =>
      if ok || s.fence.None? then s.(fence := None, pc := RecRelease(epoch, at))
      else s.(pc := Idle, out := ClearFailed)
    case RecRelease(epoch, at) =>
      s.(pc := if ok then RecMark(epoch, at) else RecReleaseFence(epoch))
    case RecReleaseFence(epoch) =>
      s.(fence := if ok then Some(epoch) else s.fence, pc := Idle, out := ReleaseFailed(ok))
    case RecMark(epoch, at) =>
      if at >= |s.incs| || !s.incs[at].Standing() then s.(pc := Idle, out := RecoverRejected)
      else if ok then s.(incs := Admit(s.incs, at), pc := RecActivate(epoch, at))
      else s.(pc := RecMarkFence(epoch))
    case RecMarkFence(epoch) =>
      s.(fence := if ok then Some(epoch) else s.fence, pc := RecMarkRollback(ok))
    case RecMarkRollback(fenceBack) =>
      var last := Latest(s.incs);
      if last.Some? && last.value.state == Recovered then
        s.(incs := if ok then SetState(s.incs, |s.incs| - 1, IncidentState.Contained) else s.incs,
           pc := RecRecontain(false, fenceBack && ok))
      else s.(pc := RecRecontain(false, fenceBack))
    case RecActivate(epoch, at) =>
      (match s.live.rt.Recover(s.live.capability, epoch, s.next)
       case Ok(rt) => s.(live := s.live.(rt := rt), next := s.next + 1, pc := RecRotate(rt.epoch))
       case Err(_) => s.(pc := RecActFence(epoch, at)))
    case RecActFence(epoch, at) =>
      s.(fence := if ok then Some(epoch) else s.fence, pc := RecActRollback(at, ok))
    case RecActRollback(at, fenceBack) =>
      var can := ok && at < |s.incs| && s.incs[at].state == Recovered;
      s.(incs := if can then SetState(s.incs, at, IncidentState.Contained) else s.incs,
         pc := RecRecontain(true, fenceBack && can))
    case RecRecontain(activation, writesBack) =>
      s.(pc := Idle, out := if activation then ActivationFailed(writesBack, ok) else StorageFailed(writesBack, ok))
    case RecRotate(recovered) =>
      s.(live := Up(s.live.rt.(capability := s.next), s.next), next := s.next + 1,
         pc := Idle, out := RecoverReturned(recovered))
  }

  function StepRegisterCall(s: Sys, supplied: Option<Rt>): Sys {
    if !s.pc.Idle? then s
    else if s.live.Up? || s.agent == "" then s.(out := RegisterRaised)
    else match supplied
      case None =>
        s.(pc := RegStart(Rt(s.agent, Active, 0, s.next, s.next + 1), false, s.fence), next := s.next + 2)
      case Some(rt) =>
        if rt.agentId != s.agent then s.(out := RegisterRaised)
        // A runtime object can only hold identities that have been drawn.
        else if rt.proof >= s.next || rt.capability >= s.next then s
        else s.(pc := RegStart(rt, true, s.fence))
  }

  function Refuse(s: Sys): Sys {
    s.(pc := Idle, out := RegisterRaised)
  }

  function StepRegister(s: Sys, ok: bool): Sys
    requires Registering(s.pc)
  {
    match s.pc
    case RegStart(rt, supplied, f) => RegisterStart(s, ok, rt, supplied, f)
    case RegAdmit(rt, supplied, f) => RegisterFenced(s, ok, rt, supplied, f)
    case RegPrepare(rt, epoch) =>
      if ok then s.(fence := Some(epoch), pc := RegInstall(rt, true)) else Refuse(s)
    case RegContained(rt, supplied) => RegisterContained(s, rt, supplied)
    case RegInstall(rt, _) =>
      s.(live := Up(rt.(capability := s.next), s.next), next := s.next + 1, pc := Idle, out := RegisterReturned)
  }

  /** Make the latest incident agree with the fence, with at most one write. */
  function RegisterStart(s: Sys, ok: bool, rt: Rt, supplied: bool, f: Option<nat>): Sys {
    var last := Latest(s.incs);
    if f.Some? && last.None? then
      RegisterRecord(s, ok, rt, supplied, f.value)
    else if f.Some? && last.value.state == Recovered then
      if last.value.epoch == f.value then
        if ok then s.(incs := SetState(s.incs, |s.incs| - 1, IncidentState.Contained), pc := RegAdmit(rt, supplied, f))
        else Refuse(s)
      else if last.value.recovery.Some? && f.value > last.value.recovery.value then
        RegisterRecord(s, ok, rt, supplied, f.value)
      else Refuse(s)
    else s.(pc := RegAdmit(rt, supplied, f))
  }

  /** The fence admits only a runtime held at its own epoch. */
  function RegisterFenced(s: Sys, ok: bool, rt: Rt, supplied: bool, f: Option<nat>): Sys {
    if f.None? then RegisterAdmit(s, ok, rt, supplied, f)
    else if supplied then
      if rt.CanExecute() || (rt.state == RuntimeState.Contained && rt.epoch != f.value) then Refuse(s)
      else RegisterAdmit(s, ok, rt, supplied, f)
    else if rt.RestoreContained(f.value, s.next).Err? then Refuse(s)
    else
      var w := Apply(World(rt, s.next), OpRestoreContained(f.value));
      RegisterAdmit(s.(next := w.next), ok, w.rt, supplied, f)
  }

  /** So does an incident that still holds the agent. */
  function RegisterContained(s: Sys, rt: Rt, supplied: bool): Sys {
    var last := Latest(s.incs);
    if last.None? then Refuse(s)
    else if supplied then
      if rt.CanExecute() || (rt.state == RuntimeState.Contained && rt.epoch != last.value.epoch) then Refuse(s)
      else s.(pc := RegInstall(rt, supplied))
    else if rt.RestoreContained(last.value.epoch, s.next).Err? then Refuse(s)
    else
      var w := Apply(World(rt, s.next), OpRestoreContained(last.value.epoch));
      s.(next := w.next, pc := RegInstall(w.rt, supplied))
  }

  function RegisterRecord(s: Sys, ok: bool, rt: Rt, supplied: bool, epoch: nat): Sys {
    if ok && !Known(s.incs, IncidentId(s.agent, epoch))
    then s.(incs := Recorded(s.agent, s.incs, epoch, epoch), pc := RegAdmit(rt, supplied, Some(epoch)))
    else Refuse(s)
  }

  function RegisterAdmit(s: Sys, ok: bool, rt: Rt, supplied: bool, f: Option<nat>): Sys {
    var last := Latest(s.incs);
    if f.None? && last.Some? && last.value.state == Recovered then
      if last.value.recovery.None? || !supplied then Refuse(s)
      else if rt.state == RuntimeState.Contained && rt.epoch == last.value.epoch then
        if ok then s.(incs := SetState(s.incs, |s.incs| - 1, IncidentState.Contained),
                      pc := RegPrepare(rt, last.value.epoch))
        else Refuse(s)
      else if !rt.CanExecute() || rt.epoch != last.value.recovery.value then Refuse(s)
      else s.(pc := RegInstall(rt, supplied))
    else if last.Some? && last.value.Standing() then
      if f.Some? then s.(pc := RegContained(rt, supplied))
      else if ok then s.(fence := Some(last.value.epoch), pc := RegContained(rt, supplied))
      else Refuse(s)
    else s.(pc := RegInstall(rt, supplied))
  }

  // ----- runs -----

  function Run(s: Sys, acts: seq<Action>): Sys
    decreases acts
  {
    if acts == [] then s else Run(Step(s, acts[0]), acts[1..])
  }

  lemma {:induction false} RunAppend(s: Sys, acts: seq<Action>, more: seq<Action>)
    ensures Run(s, acts + more) == Run(Run(s, acts), more)
    decreases acts
  {
    if acts == [] {
      assert acts + more == more;
    } else {
      assert (acts + more)[1..] == acts[1..] + more;
      RunAppend(Step(s, acts[0]), acts[1..], more);
    }
  }

  lemma RunOne(s: Sys, a: Action)
    ensures Run(s, [a]) == Step(s, a)
  {
    assert [a][1..] == [];
  }

  lemma {:induction false} RunLast(s: Sys, acts: seq<Action>, a: Action)
    ensures Run(s, acts + [a]) == Step(Run(s, acts), a)
  {
    RunAppend(s, acts, [a]);
    RunOne(Run(s, acts), a);
  }

  lemma RunFive(s: Sys, a: Action, b: Action, c: Action, d: Action, e: Action)
    ensures Run(s, [a, b, c, d, e]) == Step(Step(Step(Step(Step(s, a), b), c), d), e)
  {
    var s1 := Step(s, a);
    var s2 := Step(s1, b);
    var s3 := Step(s2, c);
    calc {
      Run(s, [a, b, c, d, e]);
      { assert [a, b, c, d, e][1..] == [b, c, d, e]; }
      Run(s1, [b, c, d, e]);
      { assert [b, c, d, e][1..] == [c, d, e]; }
      Run(s2, [c, d, e]);
      { assert [c, d, e][1..] == [d, e]; }
      Run(s3, [d, e]);
      { assert [d, e][1..] == [e]; }
      Run(Step(s3, d), [e]);
      { assert [e][1..] == []; }
      Step(Step(s3, d), e);
    }
  }

  lemma {:induction false} RunThree(s: Sys, a: Action, b: Action, c: Action)
    ensures Run(s, [a, b, c]) == Step(Step(Step(s, a), b), c)
  {
    RunOne(s, a);
    RunLast(s, [a], b);
    RunLast(s, [a] + [b], c);
    assert [a] + [b] + [c] == [a, b, c];
  }

  // ----- other threads -----

  function Threads(ops: seq<Op>): seq<Action>
    requires Stops(ops)
  {
    if ops == [] then [] else [if ops[0].OpHalt? then Halt else ContainDirectly] + Threads(ops[1..])
  }

  /** The agent with its runtime and the identities as the threads leave them. */
  function Disturbed(s: Sys, ops: seq<Op>): Sys
    requires s.live.Up?
  {
    var w := ApplyAll(World(s.live.rt, s.next), ops);
    s.(live := s.live.(rt := w.rt), next := w.next)
  }

  lemma {:induction false} RunThreads(s: Sys, ops: seq<Op>)
    requires s.live.Up? && Stops(ops)
    ensures Run(s, Threads(ops)) == Disturbed(s, ops)
    decreases ops
  {
    if ops != [] {
      assert Threads(ops)[1..] == Threads(ops[1..]);
      RunThreads(Step(s, Threads(ops)[0]), ops[1..]);
    }
  }

  /** A machine that has never contained the agent, with no process running. */
  predicate Fresh(s: Sys) {
    s.fence.None? && s.incs == [] && s.live.Down? && s.pc.Idle?
  }
}
