/** One agent through any sequence of calls of a service that serves many, with restarts in between:
    what the theorems about runs say about whole histories.
    Source: src/agent_containment/control.py. */
module AgentHistory {
  import opened Wrappers
  import opened RuntimeModel
  import opened IncidentRegistry
  import opened Enforcement
  import opened Protocol
  import opened ProtocolSafety
  import opened ProtocolTheorems
  import opened ProtocolRestart
  import opened ProtocolLiveness
  import opened RecoverRuns
  import opened RegisterRuns
  import ContainDiscipline

  /** What can be asked of the service, or happen beside it. The flags say how the devices answer. */
  datatype Request =
    | Containment(agent: string, hooks: seq<Hook>, fenced: bool, r1: seq<Op>, r2: seq<Op>, recorded: bool,
                  audited: bool, degraded: bool)
    | Recovery(agent: string, auth: Auth, w: Faults)
    | Registration(agent: string, starts: bool, admits: bool, settles: bool)
    // With a controller over a runtime that `ops` have brought to where it stands.
    | SuppliedRegistration(agent: string, owner: string, ops: seq<Op>, providers: seq<string>, replies: Replies,
                           starts: bool, admits: bool, settles: bool)
    | Deregistration(agent: string)
    | Issuance(agent: string)
    | Reconciliation(agent: string)
    | Workload(agent: string, cgroup: string)
    | Token(agent: string, peerPid: Option<int>)
    // Threads that hold only the runtime's lock. To the protocol, so are `authorize` with its HALT and
    // the gateway.
    | Interference(agent: string, ops: seq<Op>)
    | Proof(agent: string, target: nat, reference: string, writes: bool)
    // The process dies, and a new one builds its service over the same files.
    | Restart
  {
    predicate Valid() {
      match this
      case Containment(_, _, _, r1, r2, _, _, _) => Stops(r1) && Stops(r2)
      case Recovery(_, _, w) => w.Valid()
      case Interference(_, ops) => Stops(ops)
      case _ => true
    }
  }

  datatype Answer = Refused | Accepted | Issued(auth: Auth)

  /** One request, the steps it made for the agent, and its answer. */
  datatype Turn = Turn(request: Request, acts: seq<Action>, answer: Answer)

  /** A new runtime of `owner`, and what has been done to it since. */
  function Built(owner: string, next: Id, ops: seq<Op>): World {
    ApplyAll(World(Rt(owner, Active, 0, next, next + 1), next + 2), ops)
  }

  /** How the steps and the answer of a turn come from its request, for the agent it concerns. */
  ghost predicate Explains(turn: Turn, s: Sys)
    requires turn.request.Valid()
  {
    match turn.request
    case Containment(_, _, fenced, r1, r2, recorded, audited, degraded) =>
      && turn.acts == (if s.live.Up? then ContainDiscipline.ContainActs(fenced, r1, r2, recorded, audited, degraded)
                       else [])
      && turn.answer == (if s.live.Up? && Run(s, turn.acts).out.ContainReturned? then Accepted else Refused)
    case Recovery(_, auth, w) =>
      && (s.live.Up? ==> exists f: Faults ::
            f == w.(released := f.released, recontained := f.recontained) && turn.acts == RecoverActs(s, auth, f))
      && (s.live.Down? ==> turn.acts == [])
      && turn.answer == (if s.live.Up? && Run(s, turn.acts).out.RecoverReturned? then Accepted else Refused)
    case Registration(_, starts, admits, settles) =>
      && turn.acts == RegisterActs(None, starts, admits, settles)
      && turn.answer == (if Run(s, turn.acts).out.RegisterReturned? then Accepted else Refused)
    case SuppliedRegistration(_, owner, ops, _, _, starts, admits, settles) =>
      var w := Built(owner, s.next, ops);
      && w.next >= s.next
      && turn.acts == [DrawElsewhere(w.next - s.next)] + RegisterActs(Some(w.rt), starts, admits, settles)
      && turn.answer == (if Run(s, turn.acts).out.RegisterReturned? then Accepted else Refused)
    case Deregistration(_) => turn.acts == [Unregister] && turn.answer == Accepted
    case Issuance(_) =>
      turn.acts == [] && !turn.answer.Accepted?
        && (turn.answer.Issued? ==> ProtocolTheorems.Issue(s, true) == Some(turn.answer.auth))
    case Reconciliation(_) =>
      turn.acts == [] && turn.answer == if ProtocolTheorems.Issue(s, true).Some? then Accepted else Refused
    case Workload(_, _) => turn.acts == [] && !turn.answer.Issued?
    case Token(_, _) =>
      turn.acts == (if turn.answer.Accepted? then [DrawElsewhere(1)] else []) && !turn.answer.Issued?
    case Interference(_, ops) => turn.acts == (if s.live.Up? then Threads(ops) else []) && turn.answer == Accepted
    case Proof(_, _, _, _) => AttachesProof(turn.acts) && !turn.answer.Issued?
    case Restart => turn.acts == [Crash] && turn.answer == Accepted
  }

  predicate AttachesProof(acts: seq<Action>) {
    acts == [] || (|acts| == 1 && acts[0].AttachProof?)
  }

  /** A turn that serves another agent draws identities at most, or touches no record of this one. */
  predicate PassesBy(turn: Turn) {
    |turn.acts| == 1 && turn.acts[0].DrawElsewhere?
  }

  ghost predicate TurnOf(a: string, turn: Turn, s: Sys) {
    turn.request.Valid() && if turn.request.Restart? || turn.request.agent == a then Explains(turn, s)
      else PassesBy(turn)
  }

  /** `trace[i]` is the agent between turn `i - 1` and turn `i`. */
  ghost predicate History(a: string, trace: seq<Sys>, turns: seq<Turn>) {
    && |trace| == |turns| + 1
    && Safe(trace[0])
    && (forall i :: 0 <= i < |trace| ==> trace[i].pc.Idle? && trace[i].out == Nothing && trace[i].agent == a)
    && (forall i :: 0 <= i < |turns| ==>
        TurnOf(a, turns[i], trace[i]) && Follows(trace[i], turns[i].acts, trace[i + 1]))
  }

  /** The outcome of the last operation is for its caller; it is no part of the agent. */
  predicate Follows(s: Sys, acts: seq<Action>, t: Sys) {
    t == Run(s, acts).(out := Nothing)
  }

  lemma HistoryExtended(a: string, trace: seq<Sys>, turns: seq<Turn>, turn: Turn, t: Sys)
    requires History(a, trace, turns) && t.pc.Idle? && t.out == Nothing && t.agent == a
    requires TurnOf(a, turn, trace[|turns|]) && Follows(trace[|turns|], turn.acts, t)
    ensures History(a, trace + [t], turns + [turn])
  {
    var after, more := trace + [t], turns + [turn];
    forall i | 0 <= i < |more| ensures TurnOf(a, more[i], after[i]) && Follows(after[i], more[i].acts, after[i + 1]) {
      if i < |turns| {
        assert more[i] == turns[i] && after[i] == trace[i] && after[i + 1] == trace[i + 1];
      }
    }
    forall i | 0 <= i < |after| ensures after[i].pc.Idle? && after[i].out == Nothing && after[i].agent == a {
      assert i < |trace| ==> after[i] == trace[i];
    }
  }

  // ----- runs do not depend on outcomes -----

  lemma StepIgnoresOutcome(s: Sys, o: Outcome, a: Action)
    ensures Step(s.(out := o), a).(out := Nothing) == Step(s, a).(out := Nothing)
  {
    if a.CallRegister? {
    } else if a.Proceed? {
      if s.pc.Idle? {
      } else if Registering(s.pc) {
        RegisterIgnoresOutcome(s, o, a.ok);
      } else if s.live.Down? {
      } else if Containing(s.pc) {
      } else {
        RecoverIgnoresOutcome(s, o, a.ok);
      }
    }
  }

  lemma AdmitIgnoresOutcome(s: Sys, o: Outcome, ok: bool, rt: Rt, supplied: bool, f: Option<nat>)
    ensures RegisterAdmit(s.(out := o), ok, rt, supplied, f).(out := Nothing)
            == RegisterAdmit(s, ok, rt, supplied, f).(out := Nothing)
  {}

  lemma FencedIgnoresOutcome(s: Sys, o: Outcome, ok: bool, rt: Rt, supplied: bool, f: Option<nat>)
    ensures RegisterFenced(s.(out := o), ok, rt, supplied, f).(out := Nothing)
            == RegisterFenced(s, ok, rt, supplied, f).(out := Nothing)
  {
    AdmitIgnoresOutcome(s, o, ok, rt, supplied, f);
    if f.Some? && !supplied {
      var w := Apply(World(rt, s.next), OpRestoreContained(f.value));
      AdmitIgnoresOutcome(s.(next := w.next), o, ok, w.rt, supplied, f);
    }
  }

  lemma StartIgnoresOutcome(s: Sys, o: Outcome, ok: bool, rt: Rt, supplied: bool, f: Option<nat>)
    ensures RegisterStart(s.(out := o), ok, rt, supplied, f).(out := Nothing)
            == RegisterStart(s, ok, rt, supplied, f).(out := Nothing)
  {}

  lemma ContainedIgnoresOutcome(s: Sys, o: Outcome, rt: Rt, supplied: bool)
    ensures RegisterContained(s.(out := o), rt, supplied).(out := Nothing)
            == RegisterContained(s, rt, supplied).(out := Nothing)
  {}

  lemma RegisterIgnoresOutcome(s: Sys, o: Outcome, ok: bool)
    requires Registering(s.pc)
    ensures StepRegister(s.(out := o), ok).(out := Nothing) == StepRegister(s, ok).(out := Nothing)
  {
    match s.pc
    case RegStart(rt, supplied, f) => StartIgnoresOutcome(s, o, ok, rt, supplied, f);
    case RegAdmit(rt, supplied, f) => FencedIgnoresOutcome(s, o, ok, rt, supplied, f);
    case RegContained(rt, supplied) => ContainedIgnoresOutcome(s, o, rt, supplied);
    case _ =>
  }

  lemma RecoverIgnoresOutcome(s: Sys, o: Outcome, ok: bool)
    requires Recovering(s.pc) && s.live.Up?
    ensures StepRecover(s.(out := o), ok).(out := Nothing) == StepRecover(s, ok).(out := Nothing)
  {}

  lemma {:induction false} RunIgnoresOutcome(s: Sys, t: Sys, acts: seq<Action>)
    requires s.(out := Nothing) == t.(out := Nothing)
    ensures Run(s, acts).(out := Nothing) == Run(t, acts).(out := Nothing)
    decreases acts
  {
    if acts != [] {
      assert s == t.(out := s.out);
      StepIgnoresOutcome(t, s.out, acts[0]);
      RunIgnoresOutcome(Step(s, acts[0]), Step(t, acts[0]), acts[1..]);
    }
  }

  // ----- safety between turns -----

  lemma {:induction false} SafeThroughout(a: string, trace: seq<Sys>, turns: seq<Turn>, i: nat)
    requires History(a, trace, turns) && i < |trace|
    ensures Safe(trace[i])
    decreases i
  {
    if i > 0 {
      SafeThroughout(a, trace, turns, i - 1);
      assert Follows(trace[i - 1], turns[i - 1].acts, trace[i]);
      SafeRun(trace[i - 1], turns[i - 1].acts);
      SafeElsewhere(Run(trace[i - 1], turns[i - 1].acts), trace[i].next, Nothing);
    }
  }

  /** Whenever no call is in progress, an executable runtime is held by nothing durable. */
  lemma {:induction false} NeverExecutableUnderMark(a: string, trace: seq<Sys>, turns: seq<Turn>, i: nat)
    requires History(a, trace, turns) && i < |trace| && Executable(trace[i])
    ensures Unheld(trace[i])
  {
    SafeThroughout(a, trace, turns, i);
    NoExecutableUnderMark(trace[i]);
  }

  lemma {:induction false} Keeping(a: string, trace: seq<Sys>, turns: seq<Turn>, i: nat, j: nat)
    requires History(a, trace, turns) && i <= j < |trace|
    ensures Keeps(trace[i], trace[j])
    decreases j
  {
    if i < j {
      Keeping(a, trace, turns, i, j - 1);
      SafeThroughout(a, trace, turns, j - 1);
      assert Follows(trace[j - 1], turns[j - 1].acts, trace[j]);
      SafeRun(trace[j - 1], turns[j - 1].acts);
    }
  }

  // ----- what an accepted registration leaves -----

  /** Whether the runtime being registered was supplied; only a supplied one aborts a recovery. */
  predicate OfSupplied(pc: Pc) {
    match pc
    case RegStart(_, supplied, _) => supplied
    case RegAdmit(_, supplied, _) => supplied
    case RegPrepare(_, _) => true
    case RegContained(_, supplied) => supplied
    case RegInstall(_, supplied) => supplied
    case _ => false
  }

  predicate StillRegisters(s: Sys, t: Sys) {
    t.live == s.live && (Registering(t.pc) ==> OfSupplied(t.pc) == OfSupplied(s.pc))
  }

  lemma AdmitStillRegisters(s: Sys, ok: bool, rt: Rt, supplied: bool, f: Option<nat>)
    ensures var t := RegisterAdmit(s, ok, rt, supplied, f);
            t.live == s.live && (Registering(t.pc) ==> OfSupplied(t.pc) == supplied)
  {}

  lemma StartStillRegisters(s: Sys, ok: bool, rt: Rt, supplied: bool, f: Option<nat>)
    ensures var t := RegisterStart(s, ok, rt, supplied, f);
            t.live == s.live && (Registering(t.pc) ==> OfSupplied(t.pc) == supplied)
  {}

  /** Nothing enters the table before the installation, which is of the runtime the call is about. */
  lemma StepStillRegisters(s: Sys, ok: bool)
    requires Registering(s.pc) && !s.pc.RegInstall?
    ensures StillRegisters(s, StepRegister(s, ok))
  {
    match s.pc
    case RegStart(rt, supplied, f) => StartStillRegisters(s, ok, rt, supplied, f);
    case RegAdmit(rt, supplied, f) =>
      AdmitStillRegisters(s, ok, rt, supplied, f);
      if f.Some? && !supplied {
        var w := Apply(World(rt, s.next), OpRestoreContained(f.value));
        AdmitStillRegisters(s.(next := w.next), ok, w.rt, supplied, f);
      }
    case _ =>
  }

  ghost predicate Onward(s: Sys, t: Sys) {
    Safe(t) && Keeps(s, t) && StillRegisters(s, t)
  }

  lemma OnwardStep(s: Sys, ok: bool) returns (t: Sys)
    requires Safe(s) && Registering(s.pc) && !s.pc.RegInstall?
    ensures t == StepRegister(s, ok) && Onward(s, t)
  {
    t := Step(s, Proceed(ok));
    SafeProceed(s, ok);
    StepStillRegisters(s, ok);
  }

  lemma {:induction false} PreparedSafe(s: Sys, rt: Rt, supplied: bool, starts: bool, admits: bool, settles: bool)
    requires Safe(s) && s.pc == RegStart(rt, supplied, s.fence)
    ensures Onward(s, Prepared(s, rt, supplied, starts, admits, settles))
  {
    var t1 := OnwardStep(s, starts);
    assert t1 == RegisterStart(s, starts, rt, supplied, s.fence);
    if !t1.pc.Idle? {
      assert t1.pc == RegAdmit(rt, supplied, s.fence);
      var t2 := OnwardStep(t1, admits);
      assert t2 == RegisterFenced(t1, admits, rt, supplied, s.fence);
      if !t2.pc.Idle? && !t2.pc.RegInstall? {
        var t3 := OnwardStep(t2, settles);
      }
    }
  }

  /** Fence, incident and runtime agree; an executable runtime attests the recorded recovery. */
  predicate Agrees(t: Sys) {
    t.live.Up? && t.incs != [] &&
    var last := Latest(t.incs).value;
    && (t.live.rt.state == RuntimeState.Contained ==>
          t.fence == Some(t.live.rt.epoch) && last.Standing() && last.epoch == t.live.rt.epoch)
    && (Executable(t) ==> t.fence.None? && last.state == Recovered && last.recovery == Some(t.live.rt.epoch))
  }

  lemma InstallationAgrees(t: Sys)
    requires Safe(t) && t.pc.RegInstall?
    ensures var u := Installed(t);
            && u.live.Up? && u.out == RegisterReturned
            && (Marked(t) ==> Agrees(u))
            && (Marked(t) && !t.pc.supplied ==> u.live.rt.state == RuntimeState.Contained)
  {
    AgreementAfterRegistration(t, true);
  }

  /** A registration that is accepted, and one that is not. */
  predicate RegistrationEnds(s: Sys, fromNew: bool, t: Sys) {
    if t.out.RegisterReturned? then
      && s.live.Down? && t.live.Up?
      && (Marked(s) ==> Agrees(t))
      && (Marked(s) && fromNew ==> t.live.rt.state == RuntimeState.Contained)
    else t.live == s.live
  }

  lemma {:induction false} EnrolmentOutcome(s: Sys, rt: Rt, supplied: bool, starts: bool, admits: bool, settles: bool)
    requires Safe(s) && s.pc == RegStart(rt, supplied, s.fence)
    ensures RegistrationEnds(s, !supplied, Finished(Prepared(s, rt, supplied, starts, admits, settles)))
  {
    PreparedSafe(s, rt, supplied, starts, admits, settles);
    var t := Prepared(s, rt, supplied, starts, admits, settles);
    if t.pc.RegInstall? {
      InstallationAgrees(t);
    }
  }

  lemma {:induction false} RegistrationOutcome(s: Sys, supplied: Option<Rt>, starts: bool, admits: bool, settles: bool)
    requires Safe(s) && s.pc.Idle? && !s.out.RegisterReturned? && HoldsDrawn(s, supplied)
    ensures RegistrationEnds(s, supplied.None?, Run(s, RegisterActs(supplied, starts, admits, settles)))
  {
    RegisterResult(s, supplied, starts, admits, settles);
    SafeStep(s, CallRegister(supplied));
    var u := Step(s, CallRegister(supplied));
    if u.pc.RegStart? {
      EnrolmentOutcome(u, u.pc.rt, supplied.Some?, starts, admits, settles);
    }
  }

  predicate Registers(q: Request, a: string) {
    (q.Registration? || q.SuppliedRegistration?) && q.agent == a
  }

  lemma {:induction false} BuiltIsDrawn(owner: string, next: Id, ops: seq<Op>)
    ensures Built(owner, next, ops).Valid() && Built(owner, next, ops).next >= next
  {
    ProofOfRun(World(Rt(owner, Active, 0, next, next + 1), next + 2), ops);
  }

  lemma {:induction false} RegistrationTurn(a: string, turn: Turn, s: Sys)
    requires Safe(s) && s.pc.Idle? && s.out == Nothing
    requires TurnOf(a, turn, s) && Registers(turn.request, a)
    ensures var t := Run(s, turn.acts);
            && RegistrationEnds(s, turn.request.Registration?, t)
            && turn.answer == (if t.out.RegisterReturned? then Accepted else Refused)
  {
    match turn.request
    case Registration(_, starts, admits, settles) =>
      RegistrationOutcome(s, None, starts, admits, settles);
    case SuppliedRegistration(_, owner, ops, _, _, starts, admits, settles) =>
      var w := Built(owner, s.next, ops);
      var drawn := DrawElsewhere(w.next - s.next);
      var acts := RegisterActs(Some(w.rt), starts, admits, settles);
      BuiltIsDrawn(owner, s.next, ops);
      SafeStep(s, drawn);
      RegistrationOutcome(Step(s, drawn), Some(w.rt), starts, admits, settles);
      assert turn.acts[0] == drawn && turn.acts[1..] == acts;
  }

  /** The admission fence over any history: what is durable stays durable, and every accepted
      registration of a marked agent leaves the three copies in agreement, held unless a runtime that
      attests the recorded recovery was supplied. */
  lemma {:induction false} AdmissionFence(a: string, trace: seq<Sys>, turns: seq<Turn>, i: nat, j: nat)
    requires History(a, trace, turns) && i <= j < |turns| && Marked(trace[i])
    ensures Marked(trace[j]) && Marked(trace[j + 1])
    ensures Registers(turns[j].request, a) && turns[j].answer.Accepted? ==> Agrees(trace[j + 1])
    ensures turns[j].request.Registration? && turns[j].request.agent == a && turns[j].answer.Accepted? ==>
              trace[j + 1].live.rt.state == RuntimeState.Contained
  {
    Keeping(a, trace, turns, i, j);
    Keeping(a, trace, turns, j, j + 1);
    SafeThroughout(a, trace, turns, j);
    assert Follows(trace[j], turns[j].acts, trace[j + 1]);
    if Registers(turns[j].request, a) {
      RegistrationTurn(a, turns[j], trace[j]);
    }
  }

  // ----- what a containment leaves -----

  lemma LeavesIgnoresOutcome(q: Request, s: Sys, returned: bool, u: Sys)
    requires s.live.Up? && q.Containment?
    requires ContainDiscipline.ContainmentLeaves(s, q.fenced, q.r1, q.r2, q.recorded, q.audited, q.degraded, returned,
                                                 u)
    ensures ContainDiscipline.ContainmentLeaves(s, q.fenced, q.r1, q.r2, q.recorded, q.audited, q.degraded, returned,
                                                u.(out := Nothing))
  {}

  lemma {:induction false} ContainmentSettles(turn: Turn, s: Sys, t: Sys)
    requires s.pc.Idle? && s.live.Up? && turn.request.Valid() && turn.request.Containment?
    requires Explains(turn, s) && Follows(s, turn.acts, t)
    ensures var q := turn.request;
            ContainDiscipline.ContainmentLeaves(s, q.fenced, q.r1, q.r2, q.recorded, q.audited, q.degraded,
                                                turn.answer == Accepted, t)
  {
    var q := turn.request;
    ContainDiscipline.ContainLeaves(s, q.fenced, q.r1, q.r2, q.recorded, q.audited, q.degraded);
    var u := Run(s, turn.acts);
    LeavesIgnoresOutcome(q, s, u.out == ContainReturned, u);
  }

  /** Every containment of every history, whatever fails and whoever interferes: refused without a trace if the
      agent is not registered, and otherwise answered, and leaving runtime, fence and incidents, as
      `ContainmentLeaves` says. */
  lemma {:induction false} ContainmentTurn(a: string, trace: seq<Sys>, turns: seq<Turn>, i: nat)
    requires History(a, trace, turns) && i < |turns|
    requires turns[i].request.Containment? && turns[i].request.agent == a
    ensures var s, t, q := trace[i], trace[i + 1], turns[i].request;
            if s.live.Down? then turns[i].answer == Refused && t == s
            else ContainDiscipline.ContainmentLeaves(s, q.fenced, q.r1, q.r2, q.recorded, q.audited, q.degraded,
                                                     turns[i].answer == Accepted, t)
  {
    var s, q := trace[i], turns[i].request;
    assert TurnOf(a, turns[i], s) && Follows(s, turns[i].acts, trace[i + 1]);
    if s.live.Up? {
      ContainmentSettles(turns[i], s, trace[i + 1]);
    }
  }

  // ----- what a recovery leaves -----

  predicate Succeeds(s: Sys, auth: Auth, f: Faults)
    requires s.live.Up?
  {
    Admissible(s, auth) && (f.clears || s.fence.None?) && f.released && f.admits && f.before == []
  }

  lemma RecoveredOutcome(s: Sys, auth: Auth, f: Faults)
    requires s.pc.Idle? && s.live.Up? && s.out == Nothing && Owned(s) && f.Valid()
    ensures var t := RecoverRuns.Recovered(s, auth, f);
            && (t.out.RecoverReturned? <==> Succeeds(s, auth, f))
            && (t.out.RecoverReturned? ==>
                  && t.out.epoch == auth.epoch + 1
                  && t.fence.None? && RecoveredFrom(t, auth.epoch)
                  && Latest(t.incs).value.recovery == Some(auth.epoch + 1)
                  && t.live.Up? && WorldOf(t) == Activated(WorldOf(s), auth.capability, auth.epoch, f.after)
                  && t.live.capability == t.live.rt.capability)
  {}

  lemma ActivatedCapability(w: World, capability: Id, e: nat, after: seq<Op>)
    requires Stops(after)
    ensures Activated(w, capability, e, after).rt.capability >= w.next
    ensures Effective(w.rt, OpRecover(capability, e)) ==> Activated(w, capability, e, after).rt.epoch == e + 1 + |after|
  {
    StopsCount(Apply(w, OpRecover(capability, e)), after);
  }

  /** A recovery turn that is accepted: the authorization was the current one, nobody had touched the
      runtime, and the agent has been activated at the next epoch under a newly drawn capability. */
  lemma {:induction false} RecoveryTurn(a: string, turn: Turn, s: Sys, t: Sys)
    requires Safe(s) && s.pc.Idle? && s.out == Nothing
    requires TurnOf(a, turn, s) && turn.request.Recovery? && turn.request.agent == a && turn.answer.Accepted?
    requires Follows(s, turn.acts, t)
    ensures s.live.Up? && Admissible(s, turn.request.auth) && turn.request.w.before == []
    ensures var e := turn.request.auth.epoch;
            && t.fence.None? && RecoveredFrom(t, e) && Latest(t.incs).value.recovery == Some(e + 1)
            && t.live.Up? && WorldOf(t) == Activated(WorldOf(s), s.live.capability, e, turn.request.w.after)
            && t.live.capability >= s.next
            && t.live.rt.epoch == e + 1 + |turn.request.w.after|
  {
    var auth, w := turn.request.auth, turn.request.w;
    var f: Faults :| f == w.(released := f.released, recontained := f.recontained)
      && turn.acts == RecoverActs(s, auth, f);
    RecoverResult(s, auth, f);
    RecoveredOutcome(s, auth, f);
    ActivatedCapability(WorldOf(s), auth.capability, auth.epoch, f.after);
  }

  lemma RefusedOutcome(s: Sys, auth: Auth, f: Faults)
    requires s.pc.Idle? && s.live.Up? && s.out == Nothing && f.Valid() && !Succeeds(s, auth, f)
    ensures var t := RecoverRuns.Recovered(s, auth, f);
            && t.live.Up? && t.live.capability == s.live.capability
            && (!Admissible(s, auth) ==> t == s.(out := RecoverRejected))
            && (Admissible(s, auth) ==> WorldOf(t) == ApplyAll(WorldOf(s), f.before))
            && (Admissible(s, auth) && f.fenceBack && f.rollsBack ==>
                  HeldAt(t, auth.epoch) && (t.fence == Some(auth.epoch) || (t.fence == s.fence && t.fence.Some?)))
  {}

  /** A recovery turn that is refused has done nothing to the runtime itself; what moved it is what the
      other threads did meanwhile. If its compensating writes succeed the agent is held again. */
  lemma {:induction false} RefusedRecoveryTurn(a: string, turn: Turn, s: Sys, t: Sys)
    requires Safe(s) && s.pc.Idle? && s.out == Nothing && s.live.Up?
    requires TurnOf(a, turn, s) && turn.request.Recovery? && turn.request.agent == a && turn.answer.Refused?
    requires Follows(s, turn.acts, t)
    ensures var auth, w := turn.request.auth, turn.request.w;
            && (!Admissible(s, auth) ==> t == s)
            && (Admissible(s, auth) ==>
                  t.live.Up? && t.live.capability == s.live.capability && WorldOf(t) == ApplyAll(WorldOf(s), w.before))
            && (Admissible(s, auth) && w.fenceBack && w.rollsBack ==>
                  HeldAt(t, auth.epoch) && (t.fence == Some(auth.epoch) || (t.fence == s.fence && t.fence.Some?)))
  {
    var auth, w := turn.request.auth, turn.request.w;
    var f: Faults :| f == w.(released := f.released, recontained := f.recontained)
      && turn.acts == RecoverActs(s, auth, f);
    RecoverResult(s, auth, f);
    RecoveredOutcome(s, auth, f);
    RefusedOutcome(s, auth, f);
  }

  lemma {:induction false} StaysRetired(a: string, trace: seq<Sys>, turns: seq<Turn>, i: nat, j: nat, bound: Id)
    requires History(a, trace, turns) && i <= j < |trace| && Retired(trace[i], bound)
    ensures Retired(trace[j], bound)
    decreases j
  {
    if i < j {
      StaysRetired(a, trace, turns, i, j - 1, bound);
      SafeThroughout(a, trace, turns, j - 1);
      assert Follows(trace[j - 1], turns[j - 1].acts, trace[j]);
      RetiredRun(trace[j - 1], turns[j - 1].acts, bound);
    }
  }

  /** Authorizations are single use over any history: once a recovery is accepted, no authorization on
      an identity drawn before that call, its own included, is ever accepted again, across any calls,
      registrations and restarts. */
  lemma {:induction false} SingleUse(a: string, trace: seq<Sys>, turns: seq<Turn>, i: nat, j: nat)
    requires History(a, trace, turns) && i < j < |turns|
    requires turns[i].request.Recovery? && turns[i].request.agent == a && turns[i].answer.Accepted?
    requires turns[j].request.Recovery? && turns[j].request.agent == a && turns[j].answer.Accepted?
    ensures turns[i].request.auth.capability < trace[i].next <= turns[j].request.auth.capability
  {
    SafeThroughout(a, trace, turns, i);
    SafeThroughout(a, trace, turns, j);
    assert Follows(trace[i], turns[i].acts, trace[i + 1]) && Follows(trace[j], turns[j].acts, trace[j + 1]);
    RecoveryTurn(a, turns[i], trace[i], trace[i + 1]);
    Keeping(a, trace, turns, i, i + 1);
    StaysRetired(a, trace, turns, i + 1, j, trace[i].next);
    RecoveryTurn(a, turns[j], trace[j], trace[j + 1]);
  }

  // ----- from the issue of an authorization to its use -----

  /** All the steps of a part of the history, in order. */
  function Life(turns: seq<Turn>): seq<Action> {
    if turns == [] then [] else Life(turns[..|turns| - 1]) + turns[|turns| - 1].acts
  }

  lemma {:induction false} FollowsOn(s: Sys, x: seq<Action>, t: Sys, y: seq<Action>, u: Sys)
    requires Follows(s, x, t) && Follows(t, y, u)
    ensures Follows(s, x + y, u)
  {
    RunAppend(s, x, y);
    RunIgnoresOutcome(t, Run(s, x), y);
  }

  lemma {:induction false} LifeOn(turns: seq<Turn>, i: nat, j: nat)
    requires i < j <= |turns|
    ensures Life(turns[i..j]) == Life(turns[i..j - 1]) + turns[j - 1].acts
  {
    var part := turns[i..j];
    assert part[..|part| - 1] == turns[i..j - 1];
  }

  /** A part of a history, as the states it goes through. */
  ghost predicate Chained(trace: seq<Sys>, turns: seq<Turn>, i: nat, j: nat)
    requires i <= j <= |turns| < |trace|
  {
    trace[i].out == Nothing && forall k :: i <= k < j ==> Follows(trace[k], turns[k].acts, trace[k + 1])
  }

  lemma {:induction false} ChainIsRun(trace: seq<Sys>, turns: seq<Turn>, i: nat, j: nat)
    requires i <= j <= |turns| < |trace| && Chained(trace, turns, i, j)
    ensures Follows(trace[i], Life(turns[i..j]), trace[j])
    decreases j
  {
    if i == j {
      assert turns[i..j] == [];
    } else {
      ChainIsRun(trace, turns, i, j - 1);
      LifeOn(turns, i, j);
      FollowsOn(trace[i], Life(turns[i..j - 1]), trace[j - 1], turns[j - 1].acts, trace[j - 1 + 1]);
    }
  }

  /** Any part of a history is one run of the protocol. */
  lemma {:induction false} HistoryIsRun(a: string, trace: seq<Sys>, turns: seq<Turn>, i: nat, j: nat)
    requires History(a, trace, turns) && i <= j < |trace|
    ensures Follows(trace[i], Life(turns[i..j]), trace[j])
  {
    ChainIsRun(trace, turns, i, j);
  }

  /** Turns that change the agent's table entry, whatever fails. */
  predicate Moves(turn: Turn, a: string) {
    turn.request.Restart? ||
    (turn.request.agent == a &&
     (|| turn.request.Containment?
      || turn.request.Deregistration?
      || (turn.request.Interference? && turn.request.ops != [])
      || (turn.request.Recovery? && (turn.answer.Accepted?))))
  }

  lemma {:induction false} ContainmentMoves(s: Sys, turn: Turn, t: Sys)
    requires s.pc.Idle? && s.live.Up? && turn.request.Valid() && turn.request.Containment?
    requires Explains(turn, s) && Follows(s, turn.acts, t)
    ensures t.live.Up? && t.live.rt.epoch > s.live.rt.epoch
  {
    var q, w := turn.request, World(s.live.rt, s.next);
    ContainDiscipline.ContainResult(s, q.fenced, q.r1, q.r2, q.recorded, q.audited, q.degraded);
    StopsCount(w, q.r1);
    StopsCount(Apply(ApplyAll(w, q.r1), OpContain), q.r2);
  }

  lemma {:induction false} EntryMoves(a: string, s: Sys, turn: Turn, t: Sys)
    requires Safe(s) && s.pc.Idle? && s.out == Nothing && s.live.Up?
    requires TurnOf(a, turn, s) && Moves(turn, a) && Follows(s, turn.acts, t)
    ensures t.live != s.live
  {
    if turn.request.Restart? || turn.request.Deregistration? {
      RunOne(s, turn.acts[0]);
    } else if turn.request.Containment? {
      ContainmentMoves(s, turn, t);
    } else if turn.request.Interference? {
      RunThreads(s, turn.request.ops);
      StopsCount(World(s.live.rt, s.next), turn.request.ops);
    } else {
      RecoveryTurn(a, turn, s, t);
    }
  }

  /** While a capability is in the table the runtime's epoch only grows, and stands still only if the
      runtime does. */
  lemma {:induction false} SessionBetween(a: string, trace: seq<Sys>, turns: seq<Turn>, i: nat, j: nat, capability: Id)
    requires History(a, trace, turns) && i <= j < |trace| && capability < trace[i].next && Session(trace[j], capability)
    ensures Session(trace[i], capability) && trace[j].live.rt.epoch >= trace[i].live.rt.epoch
    ensures trace[j].live.rt.epoch == trace[i].live.rt.epoch ==>
              trace[j].live.rt == trace[i].live.rt && NoInterference(Life(turns[i..j]))
  {
    SafeThroughout(a, trace, turns, i);
    HistoryIsRun(a, trace, turns, i, j);
    SessionRun(trace[i], Life(turns[i..j]), capability);
  }

  /** Authorizations are fresh over any history: if one that turn `i` issued is accepted by turn `j`,
      the agent's table entry was the same at every moment in between. Nobody halted or contained the
      runtime, and no containment, recovery, deregistration or restart came between. */
  lemma {:induction false} IssuedIsFresh(a: string, trace: seq<Sys>, turns: seq<Turn>, i: nat, j: nat)
    requires History(a, trace, turns) && i < j < |turns|
    requires turns[i].request == Issuance(a) && turns[i].answer.Issued?
    requires turns[j].request.Recovery? && turns[j].request.agent == a && turns[j].answer.Accepted?
    requires turns[j].request.auth == turns[i].answer.auth
    ensures NoInterference(Life(turns[i..j]))
    ensures forall k :: i <= k <= j ==> trace[k].live == trace[i].live
    ensures forall k :: i <= k < j ==> !Moves(turns[k], a)
  {
    var auth := turns[i].answer.auth;
    SafeThroughout(a, trace, turns, i);
    SafeThroughout(a, trace, turns, j);
    assert Follows(trace[j], turns[j].acts, trace[j + 1]);
    RecoveryTurn(a, turns[j], trace[j], trace[j + 1]);
    SessionBetween(a, trace, turns, i, j, auth.capability);
    forall k | i <= k <= j ensures trace[k].live == trace[i].live {
      Keeping(a, trace, turns, i, k);
      SessionBetween(a, trace, turns, k, j, auth.capability);
      SessionBetween(a, trace, turns, i, k, auth.capability);
    }
    forall k | i <= k < j ensures !Moves(turns[k], a) {
      SafeThroughout(a, trace, turns, k);
      assert Follows(trace[k], turns[k].acts, trace[k + 1]);
      if Moves(turns[k], a) {
        EntryMoves(a, trace[k], turns[k], trace[k + 1]);
      }
    }
  }

  // ----- restarts -----

  /** A containment asked for when the records and the epoch say it is safe, and nobody else moving the
      runtime meanwhile. */
  predicate Careful(turn: Turn, a: string, s: Sys) {
    turn.request.Containment? && turn.request.agent == a && s.live.Up? ==>
      SafeToContain(s) && turn.request.r1 == [] && turn.request.r2 == []
  }

  /** None of the steps asks for a containment. */
  predicate AsksNone(acts: seq<Action>) {
    forall i :: 0 <= i < |acts| ==> !acts[i].CallContain?
  }

  lemma RegisterStaysOutside(s: Sys, ok: bool)
    requires Registering(s.pc)
    ensures !Containing(StepRegister(s, ok).pc)
  {}

  lemma OutsideStays(s: Sys, a: Action)
    requires !Containing(s.pc) && !a.CallContain?
    ensures !Containing(Step(s, a).pc)
  {
    if a.Proceed? && Registering(s.pc) {
      RegisterStaysOutside(s, a.ok);
    } else if a.CallRegister? {
      assert !Containing(StepRegisterCall(s, a.supplied).pc);
    }
  }

  lemma {:induction false} AsksNoneIsDisciplined(s: Sys, acts: seq<Action>)
    requires !Containing(s.pc) && AsksNone(acts)
    ensures Disciplined(s, acts)
    decreases acts
  {
    if acts != [] {
      OutsideStays(s, acts[0]);
      AsksNoneIsDisciplined(Step(s, acts[0]), acts[1..]);
    }
  }

  lemma {:induction false} ProceedsDisciplined(s: Sys, acts: seq<Action>)
    requires forall i :: 0 <= i < |acts| ==> acts[i].Proceed?
    ensures Disciplined(s, acts)
    decreases acts
  {
    if acts != [] {
      ProceedsDisciplined(Step(s, acts[0]), acts[1..]);
    }
  }

  lemma {:induction false} ThreadsAskNone(ops: seq<Op>)
    requires Stops(ops)
    ensures AsksNone(Threads(ops))
  {
    if ops != [] {
      ThreadsAskNone(ops[1..]);
    }
  }

  lemma RecoverActsAskNone(s: Sys, auth: Auth, f: Faults)
    requires s.live.Up? && f.Valid()
    ensures AsksNone(RecoverActs(s, auth, f))
  {
    ThreadsAskNone(f.before);
    ThreadsAskNone(f.after);
  }

  lemma OthersAskNone(a: string, turn: Turn, s: Sys)
    requires TurnOf(a, turn, s) && !(turn.request.Containment? && turn.request.agent == a)
    ensures AsksNone(turn.acts)
  {
    if !turn.request.Restart? && turn.request.agent == a {
      match turn.request
      case Recovery(_, auth, w) =>
        if s.live.Up? {
          var f: Faults :| f == w.(released := f.released, recontained := f.recontained)
            && turn.acts == RecoverActs(s, auth, f);
          RecoverActsAskNone(s, auth, f);
        }
      case Interference(_, ops) => ThreadsAskNone(ops);
      case _ =>
    }
  }

  lemma {:induction false} TurnIsDisciplined(a: string, turn: Turn, s: Sys)
    requires s.pc.Idle? && TurnOf(a, turn, s) && Careful(turn, a, s)
    ensures Disciplined(s, turn.acts)
  {
    if turn.request.Containment? && turn.request.agent == a {
      if s.live.Up? {
        assert turn.acts[0] == CallContain;
        ProceedsDisciplined(Step(s, CallContain), turn.acts[1..]);
      }
    } else {
      OthersAskNone(a, turn, s);
      AsksNoneIsDisciplined(s, turn.acts);
    }
  }

  lemma OrderedElsewhere(s: Sys, t: Sys)
    requires Ordered(s) && s.pc.Idle? && t == s.(out := Nothing)
    ensures Ordered(t)
  {
    SafeElsewhere(s, s.next, Nothing);
    TidyKept(s, t);
  }

  /** Careful use keeps the records of an agent in order, whatever else happens to anyone. */
  lemma {:induction false} OrderedThroughout(a: string, trace: seq<Sys>, turns: seq<Turn>, i: nat)
    requires History(a, trace, turns) && i < |trace| && Ordered(trace[0])
    requires forall k :: 0 <= k < i ==> Careful(turns[k], a, trace[k])
    ensures Ordered(trace[i])
    decreases i
  {
    if i > 0 {
      OrderedThroughout(a, trace, turns, i - 1);
      TurnIsDisciplined(a, turns[i - 1], trace[i - 1]);
      OrderedRun(trace[i - 1], turns[i - 1].acts);
      assert Follows(trace[i - 1], turns[i - 1].acts, trace[i]);
      OrderedElsewhere(Run(trace[i - 1], turns[i - 1].acts), trace[i]);
    }
  }

  /** Registering again, with a device that answers: accepted exactly when the pair of records is
      coherent and not ambiguous, and then the agent is held at the pair's epoch. After careful use
      every pair is coherent, wherever the process died. */
  lemma {:induction false} ReregistrationIff(a: string, trace: seq<Sys>, turns: seq<Turn>, i: nat)
    requires History(a, trace, turns) && i < |turns| && a != ""
    requires turns[i].request == Registration(a, true, true, true) && trace[i].live.Down?
    ensures turns[i].answer.Accepted? <==> Coherent(trace[i]) && !Ambiguous(trace[i])
    ensures turns[i].answer.Accepted? && Marked(trace[i]) ==>
              var t := trace[i + 1];
              && t.live.Up? && t.live.rt.state == RuntimeState.Contained && t.live.rt.epoch == HoldingEpoch(trace[i])
    ensures Ordered(trace[0]) && (forall k :: 0 <= k < i ==> Careful(turns[k], a, trace[k])) ==> Coherent(trace[i])
  {
    SafeThroughout(a, trace, turns, i);
    assert Follows(trace[i], turns[i].acts, trace[i + 1]);
    RegistrationTurn(a, turns[i], trace[i]);
    assert RegisterActs(None, true, true, true) == RegisterRun(None);
    RestartAcceptedIff(trace[i]);
    if Ordered(trace[0]) && forall k :: 0 <= k < i ==> Careful(turns[k], a, trace[k]) {
      OrderedThroughout(a, trace, turns, i);
      OrderedIsCoherent(trace[i]);
    }
  }

  /** The runtime a registration is about, once the identities it holds have been drawn. */
  function Offered(q: Request, next: Id): Option<Rt>
    requires q.Registration? || q.SuppliedRegistration?
  {
    if q.SuppliedRegistration? then Some(Built(q.owner, next, q.ops).rt) else None
  }

  /** The agent as such a registration finds it. */
  function Found(q: Request, s: Sys): Sys
    requires q.Registration? || q.SuppliedRegistration?
  {
    if q.SuppliedRegistration? then s.(next := Built(q.owner, s.next, q.ops).next) else s
  }

  lemma {:induction false} RegistrationRuns(a: string, turn: Turn, s: Sys)
    requires Safe(s) && s.pc.Idle? && s.out == Nothing && s.agent == a
    requires TurnOf(a, turn, s) && Registers(turn.request, a)
    ensures var q := turn.request; var t := Found(q, s);
            && Safe(t) && (q.SuppliedRegistration? && q.owner == a ==> Drawn(t, Offered(q, s.next).value))
            && HoldsDrawn(t, Offered(q, s.next))
            && Run(s, turn.acts) == Run(t, RegisterActs(Offered(q, s.next), q.starts, q.admits, q.settles))
            && turn.answer == (if Run(s, turn.acts).out.RegisterReturned? then Accepted else Refused)
  {
    var q := turn.request;
    if q.SuppliedRegistration? {
      var w := Built(q.owner, s.next, q.ops);
      BuiltIsDrawn(q.owner, s.next, q.ops);
      ProofOfRun(World(Rt(q.owner, Active, 0, s.next, s.next + 1), s.next + 2), q.ops);
      SafeElsewhere(s, w.next, Nothing);
      assert turn.acts[0] == DrawElsewhere(w.next - s.next);
      assert turn.acts[1..] == RegisterActs(Some(w.rt), q.starts, q.admits, q.settles);
    }
  }

  /** What `register` refuses before it looks at anything durable. */
  predicate Barred(a: string, q: Request, s: Sys) {
    s.live.Up? || a == "" || (q.SuppliedRegistration? && q.owner != a)
  }

  lemma {:induction false} BarredRegistration(a: string, turn: Turn, s: Sys, t: Sys)
    requires Safe(s) && s.pc.Idle? && s.out == Nothing && s.agent == a
    requires TurnOf(a, turn, s) && Registers(turn.request, a) && Barred(a, turn.request, s) && Follows(s, turn.acts, t)
    ensures turn.answer == Refused && t.live == s.live && t.fence == s.fence && t.incs == s.incs
  {
    var q := turn.request;
    RegistrationRuns(a, turn, s);
    if q.SuppliedRegistration? {
      ProofOfRun(World(Rt(q.owner, Active, 0, s.next, s.next + 1), s.next + 2), q.ops);
    }
    RefusedAtOnce(Found(q, s), Offered(q, s.next), q.starts, q.admits, q.settles);
  }

  lemma {:induction false} OpenRegistration(a: string, turn: Turn, s: Sys, t: Sys)
    requires Safe(s) && s.pc.Idle? && s.out == Nothing && s.agent == a
    requires TurnOf(a, turn, s) && Registers(turn.request, a) && !Barred(a, turn.request, s) && Follows(s, turn.acts, t)
    ensures var q := turn.request;
            RegistrationLeaves(Found(q, s), Offered(q, s.next), q.starts, q.admits, q.settles, turn.answer == Accepted,
                               t)
  {
    var q := turn.request;
    RegistrationRuns(a, turn, s);
    RegistrationIff(Found(q, s), Offered(q, s.next), q.starts, q.admits, q.settles);
  }

  /** Every registration of every history, with or without a controller and whatever the device answers:
      refused without a trace if the agent is registered, nameless, or not the one the runtime is of;
      otherwise accepted, and leaving the records, as `RegistrationLeaves` says. An agent without a durable
      mark is always accepted, with the runtime as it was supplied. */
  lemma {:induction false} RegistrationTurnIff(a: string, trace: seq<Sys>, turns: seq<Turn>, i: nat)
    requires History(a, trace, turns) && i < |turns| && Registers(turns[i].request, a)
    ensures var s, t, q, accepted := trace[i], trace[i + 1], turns[i].request, turns[i].answer == Accepted;
            if s.live.Up? || a == "" || (q.SuppliedRegistration? && q.owner != a) then
              !accepted && t.live == s.live && t.fence == s.fence && t.incs == s.incs
            else
              && RegistrationLeaves(Found(q, s), Offered(q, s.next), q.starts, q.admits, q.settles, accepted, t)
              && (!Marked(s) ==>
                    && accepted && t.live.Up? && t.fence.None? && t.incs == []
                    && (q.SuppliedRegistration? ==>
                          t.live.rt == Built(a, s.next, q.ops).rt.(capability := t.live.capability)))
  {
    var s := trace[i];
    SafeThroughout(a, trace, turns, i);
    assert TurnOf(a, turns[i], s) && Follows(s, turns[i].acts, trace[i + 1]);
    if Barred(a, turns[i].request, s) {
      BarredRegistration(a, turns[i], s, trace[i + 1]);
    } else {
      OpenRegistration(a, turns[i], s, trace[i + 1]);
    }
  }

  /** The same for an ambiguous pair: the supplied runtime settles it. */
  lemma {:induction false} SettlementIff(a: string, trace: seq<Sys>, turns: seq<Turn>, i: nat)
    requires History(a, trace, turns) && i < |turns| && a != "" && Ambiguous(trace[i]) && trace[i].live.Down?
    requires turns[i].request.SuppliedRegistration? && turns[i].request.agent == turns[i].request.owner == a
    requires turns[i].request.starts && turns[i].request.admits && turns[i].request.settles
    ensures var rt := Built(a, trace[i].next, turns[i].request.ops).rt; var e := Latest(trace[i].incs).value.epoch;
            var t := trace[i + 1];
            && (turns[i].answer.Accepted? <==>
                  (rt.state == RuntimeState.Contained && rt.epoch == e) || (rt.CanExecute() && rt.epoch == e + 1))
            && (turns[i].answer.Accepted? && rt.CanExecute() ==>
                Executable(t) && t.incs == trace[i].incs && t.fence.None?)
            && (turns[i].answer.Accepted? && !rt.CanExecute() ==> HeldAt(t, e) && t.fence == Some(e) && Agrees(t))
  {
    var s, w := trace[i], Built(a, trace[i].next, turns[i].request.ops);
    var drawn := DrawElsewhere(w.next - s.next);
    SafeThroughout(a, trace, turns, i);
    assert Follows(s, turns[i].acts, trace[i + 1]);
    RegistrationTurn(a, turns[i], s);
    BuiltIsDrawn(a, s.next, turns[i].request.ops);
    ProofOfRun(World(Rt(a, Active, 0, s.next, s.next + 1), s.next + 2), turns[i].request.ops);
    SafeStep(s, drawn);
    assert RegisterActs(Some(w.rt), true, true, true) == RegisterRun(Some(w.rt));
    assert turns[i].acts[0] == drawn && turns[i].acts[1..] == RegisterRun(Some(w.rt));
    AmbiguousRestartAcceptedIff(Step(s, drawn), w.rt);
  }

  // ----- dying inside a call -----

  /** How many steps a call has left at most. */
  function Left(pc: Pc): nat {
    if pc.Idle? then 0
    else if pc.ContainFence? || pc.RecClear? then 6
    else if pc.ContainRuntime? || pc.RecRelease? then 5
    else if pc.ContainReport? || pc.RecMark? || pc.RecActivate? || pc.RegStart? then 4
    else if pc.ContainRecord? || pc.RecMarkFence? || pc.RecActFence? || pc.RegAdmit? then 3
    else if pc.ContainAudit? || pc.RecMarkRollback? || pc.RecActRollback? || pc.RegPrepare? || pc.RegContained? then 2
    else 1
  }

  /** The device refused the write this step would have made. */
  predicate Refuses(s: Sys, t: Sys) {
    t.agent == s.agent && t.fence == s.fence && t.incs == s.incs && (!s.pc.Idle? ==> Left(t.pc) < Left(s.pc))
  }

  lemma RegisterRefused(s: Sys)
    requires Registering(s.pc)
    ensures Refuses(s, StepRegister(s, false))
  {}

  lemma RecoverRefused(s: Sys)
    requires Recovering(s.pc) && s.live.Up?
    ensures Refuses(s, StepRecover(s, false))
  {}

  lemma StepRefused(s: Sys)
    requires Safe(s)
    ensures s.pc.Idle? ==> Step(s, Proceed(false)) == s
    ensures Refuses(s, Step(s, Proceed(false)))
  {
    if Registering(s.pc) {
      RegisterRefused(s);
    } else if Recovering(s.pc) {
      RecoverRefused(s);
    }
  }

  function Refusals(n: nat): seq<Action> {
    if n == 0 then [] else [Proceed(false)] + Refusals(n - 1)
  }

  /** What a process that dies inside a call leaves behind is what the same call leaves when the device
      refuses every write from that point on, which ends it. Histories have both, so a history with a
      restart after a call covers every crash point inside it. */
  lemma {:induction false} DyingIsFailing(s: Sys, n: nat)
    requires Safe(s) && n >= Left(s.pc)
    ensures var t := Run(s, Refusals(n)); t.pc.Idle? && t.agent == s.agent && t.fence == s.fence && t.incs == s.incs
    decreases n
  {
    if n > 0 {
      var u := Step(s, Proceed(false));
      StepRefused(s);
      SafeProceed(s, false);
      assert Refusals(n)[0] == Proceed(false) && Refusals(n)[1..] == Refusals(n - 1);
      DyingIsFailing(u, n - 1);
    }
  }
}
