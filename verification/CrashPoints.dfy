/** Every crash point inside a call: what the files hold when the process dies there is what some call of
    the same kind leaves when it is over, under other answers of the device, the providers and the other
    threads. A history with a restart after each of its calls therefore covers them all.
    Source: src/agent_containment/control.py. */
module CrashPoints {
  import opened Wrappers
  import opened RuntimeModel
  import opened IncidentRegistry
  import opened Protocol
  import opened ProtocolSafety
  import opened ContainDiscipline
  import opened RegisterRuns
  import opened AgentHistory
  import RecoverRuns

  predicate SameFiles(t: Sys, u: Sys) {
    t.fence == u.fence && t.incs == u.incs
  }

  /** Steps of a call and of threads that hold only the runtime's lock. */
  predicate Within(acts: seq<Action>) {
    forall i :: 0 <= i < |acts| ==> acts[i].Proceed? || acts[i].Halt? || acts[i].ContainDirectly?
  }

  lemma {:induction false} ThreadsWithin(ops: seq<Op>)
    requires Stops(ops)
    ensures Within(Threads(ops))
  {
    if ops != [] {
      ThreadsWithin(ops[1..]);
    }
  }

  // ----- contain -----

  /** What a containment has made of the files so far. */
  datatype Cut = Cut(fenced: bool, reported: nat, recorded: bool, degraded: bool)

  function FenceOf(s: Sys, cut: Cut): Option<nat>
    requires s.live.Up?
  {
    if cut.fenced then Some(s.live.rt.epoch + 1) else s.fence
  }

  function RecordsOf(s: Sys, cut: Cut): seq<Inc>
    requires s.live.Up?
  {
    var n := s.live.rt.epoch + 1;
    Audited(s.agent, Written(s.agent, s.incs, n, cut.reported, cut.recorded), n, !cut.degraded, cut.degraded)
  }

  /** The call that began at `s` has come to `t`. */
  ghost predicate MidContain(s: Sys, t: Sys, cut: Cut)
    requires s.live.Up?
  {
    var n := s.live.rt.epoch + 1;
    && t.live.Up? && t.agent == s.agent && cut.reported >= n
    && t.fence == FenceOf(s, cut) && t.incs == RecordsOf(s, cut)
    && match t.pc
       case ContainFence(target) => target == n && t.live.rt.epoch + 1 >= n && !cut.recorded && !cut.degraded
       case ContainRuntime(target) => target == n && t.live.rt.epoch + 1 >= n && !cut.recorded && !cut.degraded
       case ContainReport(target) => target == n && t.live.rt.epoch >= n && !cut.recorded && !cut.degraded
       case ContainRecord(target, reported) =>
         target == n && reported == cut.reported && !cut.recorded && !cut.degraded
       case ContainAudit(target) => target == n && !cut.degraded
       case ContainDegrade(at) =>
         !cut.degraded && Known(t.incs, IncidentId(t.agent, n)) && at == Find(t.incs, IncidentId(t.agent, n))
       case Idle => true
       case _ => false
  }

  function Onward(t: Sys, cut: Cut, a: Action): Cut {
    if !a.Proceed? then cut
    else if t.pc.ContainFence? && a.ok then cut.(fenced := true)
    else if t.pc.ContainReport? && t.live.Up? then cut.(reported := t.live.rt.epoch)
    else if t.pc.ContainRecord? && a.ok then cut.(recorded := true)
    else if t.pc.ContainDegrade? && a.ok then cut.(degraded := true)
    else cut
  }

  lemma MidContainStep(s: Sys, t: Sys, cut: Cut, a: Action)
    requires s.live.Up? && MidContain(s, t, cut)
    requires a.Proceed? || a.Halt? || a.ContainDirectly?
    ensures MidContain(s, Step(t, a), Onward(t, cut, a))
  {}

  lemma {:induction false} MidContainRun(s: Sys, t: Sys, cut: Cut, acts: seq<Action>) returns (last: Cut)
    requires s.live.Up? && MidContain(s, t, cut) && Within(acts)
    ensures MidContain(s, Run(t, acts), last)
    decreases acts
  {
    last := cut;
    if acts != [] {
      MidContainStep(s, t, cut, acts[0]);
      last := MidContainRun(s, Step(t, acts[0]), Onward(t, cut, acts[0]), acts[1..]);
    }
  }

  function Halts(n: nat): (ops: seq<Op>)
    ensures |ops| == n && Stops(ops)
  {
    if n == 0 then [] else [OpHalt] + Halts(n - 1)
  }

  /** The whole call that leaves the files so. */
  lemma {:induction false} WholeContain(s: Sys, cut: Cut) returns (r1: seq<Op>)
    requires s.pc.Idle? && s.live.Up? && cut.reported >= s.live.rt.epoch + 1
    ensures Stops(r1)
    ensures var t := Run(s, ContainActs(cut.fenced, r1, [], cut.recorded, !cut.degraded, cut.degraded));
            t.fence == FenceOf(s, cut) && t.incs == RecordsOf(s, cut)
  {
    r1 := Halts(cut.reported - (s.live.rt.epoch + 1));
    ContainResult(s, cut.fenced, r1, [], cut.recorded, !cut.degraded, cut.degraded);
    StopsCount(World(s.live.rt, s.next), r1);
  }

  lemma {:induction false} ContainWithin(fenced: bool, r1: seq<Op>, r2: seq<Op>, recorded: bool, audited: bool,
                                         degraded: bool)
    requires Stops(r1) && Stops(r2)
    ensures var acts := ContainActs(fenced, r1, r2, recorded, audited, degraded);
            acts[0] == CallContain && Within(acts[1..])
  {
    ThreadsWithin(r1);
    ThreadsWithin(r2);
  }

  lemma {:induction false} DyingInContain(s: Sys, acts: seq<Action>, n: nat) returns (cut: Cut, r1: seq<Op>)
    requires s.pc.Idle? && s.live.Up? && acts != [] && acts[0] == CallContain && Within(acts[1..]) && n <= |acts|
    ensures Stops(r1)
    ensures SameFiles(Run(s, ContainActs(cut.fenced, r1, [], cut.recorded, !cut.degraded, cut.degraded)),
                      Run(s, acts[..n]))
  {
    cut := Cut(false, s.live.rt.epoch + 1, false, false);
    if n > 0 {
      assert acts[..n][0] == CallContain && acts[..n][1..] == acts[1..][..n - 1];
      cut := MidContainRun(s, Step(s, CallContain), cut, acts[1..][..n - 1]);
    }
    r1 := WholeContain(s, cut);
  }

  // ----- recover -----

  function Admitted(s: Sys): seq<Inc>
    requires s.incs != []
  {
    Admit(s.incs, |s.incs| - 1)
  }

  function Reverted(s: Sys): seq<Inc>
    requires s.incs != []
  {
    SetState(Admitted(s), |s.incs| - 1, IncidentState.Contained)
  }

  /** The files a recovery at epoch `e` may leave. */
  predicate Leaves(s: Sys, e: nat, t: Sys)
    requires s.incs != []
  {
    || (t.fence == s.fence && t.incs == s.incs)
    || ((t.fence == None || t.fence == Some(e)) && (t.incs == s.incs || t.incs == Admitted(s) || t.incs == Reverted(s)))
  }

  function Put(e: nat, back: bool): Option<nat> {
    if back then Some(e) else None
  }

  /** The call that was accepted at `s` has come to `t`. */
  predicate MidRecover(s: Sys, e: nat, t: Sys)
    requires s.incs != []
  {
    var last := |s.incs| - 1;
    && t.live.Up?
    && match t.pc
       case RecClear(epoch, at) => epoch == e && at == last && t.fence == s.fence && t.incs == s.incs
       case RecRelease(epoch, at) => epoch == e && at == last && t.fence == None && t.incs == s.incs
       case RecMark(epoch, at) => epoch == e && at == last && t.fence == None && t.incs == s.incs
       case RecReleaseFence(epoch) => epoch == e && t.fence == None && t.incs == s.incs
       case RecMarkFence(epoch) => epoch == e && t.fence == None && t.incs == s.incs
       case RecMarkRollback(back) => t.fence == Put(e, back) && t.incs == s.incs
       case RecActivate(epoch, at) => epoch == e && at == last && t.fence == None && t.incs == Admitted(s)
       case RecActFence(epoch, at) => epoch == e && at == last && t.fence == None && t.incs == Admitted(s)
       case RecActRollback(at, back) => at == last && t.fence == Put(e, back) && t.incs == Admitted(s)
       case RecRecontain(_, _) => Leaves(s, e, t)
       case RecRotate(_) => t.fence == None && t.incs == Admitted(s)
       case Idle => Leaves(s, e, t)
       case _ => false
  }

  lemma MidRecoverProceeds(s: Sys, e: nat, t: Sys, ok: bool)
    requires s.incs != [] && Latest(s.incs).value.Standing() && MidRecover(s, e, t) && Recovering(t.pc)
    ensures MidRecover(s, e, StepRecover(t, ok))
  {}

  lemma {:induction false} MidRecoverRun(s: Sys, e: nat, t: Sys, acts: seq<Action>)
    requires s.incs != [] && Latest(s.incs).value.Standing() && MidRecover(s, e, t) && Within(acts)
    ensures MidRecover(s, e, Run(t, acts))
    decreases acts
  {
    if acts != [] {
      if acts[0].Proceed? && Recovering(t.pc) {
        MidRecoverProceeds(s, e, t, acts[0].ok);
      }
      MidRecoverRun(s, e, Step(t, acts[0]), acts[1..]);
    }
  }

  lemma MidRecoverLeaves(s: Sys, e: nat, t: Sys)
    requires s.incs != [] && MidRecover(s, e, t)
    ensures Leaves(s, e, t)
  {}

  /** The answers under which a whole call leaves the files so. */
  function Answering(s: Sys, t: Sys): RecoverRuns.Faults
    requires s.incs != []
  {
    var same := t.incs == s.incs;
    RecoverRuns.Faults(
      !(same && t.fence == s.fence && s.fence.Some?), t.fence.Some?, true, t.incs == Reverted(s),
      if t.incs == Admitted(s) && t.fence == None then [] else [OpHalt], [], !same, true)
  }

  lemma WholeRecover(s: Sys, auth: Auth, t: Sys)
    requires s.pc.Idle? && s.live.Up? && Admissible(s, auth) && Leaves(s, auth.epoch, t)
    ensures Answering(s, t).Valid() && SameFiles(RecoverRuns.Recovered(s, auth, Answering(s, t)), t)
  {
    var last := |s.incs| - 1;
    assert s.incs[last].state != Admitted(s)[last].state;
    assert Reverted(s)[last].state != Admitted(s)[last].state;
  }

  lemma {:induction false} RecoverWithin(s: Sys, auth: Auth, f: RecoverRuns.Faults)
    requires s.live.Up? && f.Valid()
    ensures var acts := RecoverRuns.RecoverActs(s, auth, f); acts[0] == CallRecover(auth) && Within(acts[1..])
  {
    ThreadsWithin(f.before);
    RestWithin(s.fence, f);
  }

  lemma {:induction false} RestWithin(fence: Option<nat>, f: RecoverRuns.Faults)
    requires f.Valid()
    ensures Within(RecoverRuns.RestActs(fence, f))
  {
    ThreadsWithin(f.after);
  }

  lemma {:induction false} DyingInRecover(s: Sys, auth: Auth, acts: seq<Action>, n: nat) returns (f: RecoverRuns.Faults)
    requires RecoverRuns.Owned(s) && s.pc.Idle? && s.live.Up? && Admissible(s, auth)
    requires acts != [] && acts[0] == CallRecover(auth) && Within(acts[1..]) && n <= |acts|
    ensures f.Valid()
    ensures SameFiles(Run(s, RecoverRuns.RecoverActs(s, auth, f)), Run(s, acts[..n]))
  {
    var t := Run(s, acts[..n]);
    if n > 0 {
      assert acts[..n][0] == CallRecover(auth) && acts[..n][1..] == acts[1..][..n - 1];
      MidRecoverRun(s, auth.epoch, Step(s, CallRecover(auth)), acts[1..][..n - 1]);
      MidRecoverLeaves(s, auth.epoch, t);
    }
    f := Answering(s, t);
    WholeRecover(s, auth, t);
    RecoverRuns.RecoverResult(s, auth, f);
  }

  // ----- register -----

  /** The next step of a registration, or of one that is already over. */
  lemma RegisterGoesOn(s: Sys, ok: bool)
    requires s.pc.Idle? || Registering(s.pc)
    ensures var t := Step(s, Proceed(ok)); (t.pc.Idle? || Registering(t.pc)) && (s.pc.Idle? || Left(t.pc) < Left(s.pc))
  {
    if Registering(s.pc) {
      StepStaysRegistering(s, ok);
    }
  }

  lemma StepStaysRegistering(s: Sys, ok: bool)
    requires Registering(s.pc)
    ensures var t := StepRegister(s, ok); (t.pc.Idle? || Registering(t.pc)) && Left(t.pc) < Left(s.pc)
  {}

  /** A refused step writes nothing, and the installation never does. */
  lemma NothingWritten(s: Sys, ok: bool)
    requires Safe(s) && (s.pc.Idle? || Registering(s.pc)) && (ok ==> Left(s.pc) <= 1)
    ensures SameFiles(Step(s, Proceed(ok)), s)
  {
    if !ok {
      StepRefused(s);
    }
  }

  lemma CallWritesNothing(s: Sys, supplied: Option<Rt>)
    requires s.pc.Idle?
    ensures var t := Step(s, CallRegister(supplied)); SameFiles(t, s) && (t.pc.Idle? || t.pc.RegStart?)
  {}

  /** Where a registration stands after `j` of its actions. */
  lemma {:induction false} RegistrationAt(s: Sys, acts: seq<Action>, j: nat)
    requires Safe(s) && s.pc.Idle? && 0 < j <= |acts| <= 5 && acts[0].CallRegister?
    requires forall i :: 1 <= i < |acts| ==> acts[i].Proceed?
    ensures var t := Run(s, acts[..j]); Safe(t) && (t.pc.Idle? || (Registering(t.pc) && Left(t.pc) + j <= 5))
    decreases j
  {
    var front := acts[..j - 1];
    assert acts[..j] == front + [acts[j - 1]];
    RunLast(s, front, acts[j - 1]);
    SafeRun(s, acts[..j]);
    if j == 1 {
      assert front == [];
      CallWritesNothing(s, acts[0].supplied);
    } else {
      RegistrationAt(s, acts, j - 1);
      RegisterGoesOn(Run(s, front), acts[j - 1].ok);
    }
  }

  /** From its `n`-th action on, refusals leave the files as they are. */
  lemma {:induction false} RefusedKeeps(s: Sys, acts: seq<Action>, n: nat, j: nat)
    requires Safe(s) && s.pc.Idle? && n <= j <= |acts| == 5 && acts[0].CallRegister?
    requires forall i :: 1 <= i < 5 ==> acts[i].Proceed? && (n <= i < 4 ==> !acts[i].ok)
    ensures SameFiles(Run(s, acts[..j]), Run(s, acts[..n]))
    decreases j
  {
    if j > n {
      var front := acts[..j - 1];
      RefusedKeeps(s, acts, n, j - 1);
      assert acts[..j] == front + [acts[j - 1]];
      RunLast(s, front, acts[j - 1]);
      if j == 1 {
        assert front == [];
        CallWritesNothing(s, acts[0].supplied);
      } else {
        RegistrationAt(s, acts, j - 1);
        NothingWritten(Run(s, front), acts[j - 1].ok);
      }
    }
  }

  lemma {:induction false} DyingInRegister(s: Sys, supplied: Option<Rt>, starts: bool, admits: bool, settles: bool,
                                           n: nat)
    requires Safe(s) && s.pc.Idle? && n <= 5
    ensures SameFiles(Run(s, RegisterActs(supplied, starts && n > 1, admits && n > 2, settles && n > 3)),
                      Run(s, RegisterActs(supplied, starts, admits, settles)[..n]))
  {
    var acts := RegisterActs(supplied, starts, admits, settles);
    var refused := RegisterActs(supplied, starts && n > 1, admits && n > 2, settles && n > 3);
    RefusedKeeps(s, refused, n, 5);
    assert refused[..5] == refused && refused[..n] == acts[..n];
  }

  // ----- any turn -----

  /** The same call: only the answers of the devices, of the providers and of the other threads differ. */
  predicate SameKind(q: Request, r: Request) {
    match q
    case Containment(agent, hooks, _, _, _, _, _, _) => r.Containment? && r.agent == agent && r.hooks == hooks
    case Recovery(agent, auth, _) => r.Recovery? && r.agent == agent && r.auth == auth
    case Registration(agent, _, _, _) => r.Registration? && r.agent == agent
    case SuppliedRegistration(agent, owner, ops, providers, replies, _, _, _) =>
      && r.SuppliedRegistration? && r.agent == agent && r.owner == owner && r.ops == ops
      && r.providers == providers && r.replies == replies
    case _ => r == q
  }

  /** Steps that write no file. */
  predicate Quiet(acts: seq<Action>) {
    forall i :: 0 <= i < |acts| ==>
      acts[i].Halt? || acts[i].ContainDirectly? || acts[i].DrawElsewhere? || acts[i].Unregister? || acts[i].Crash?
      || acts[i].CallRecover?
  }

  lemma {:induction false} QuietKeeps(s: Sys, acts: seq<Action>)
    requires Quiet(acts)
    ensures SameFiles(Run(s, acts), s)
    decreases acts
  {
    if acts != [] {
      QuietKeeps(Step(s, acts[0]), acts[1..]);
    }
  }

  /** The turn could have been cut short by itself. */
  lemma {:induction false} QuietTurn(s: Sys, acts: seq<Action>, n: nat)
    requires Quiet(acts) && n <= |acts|
    ensures SameFiles(Run(s, acts), Run(s, acts[..n]))
  {
    QuietKeeps(s, acts);
    QuietKeeps(s, acts[..n]);
  }

  function Answered(accepted: bool): Answer {
    if accepted then Accepted else AgentHistory.Refused
  }

  lemma {:induction false} ContainmentCut(turn: Turn, s: Sys, n: nat) returns (other: Turn)
    requires s.pc.Idle? && s.live.Up? && turn.request.Containment? && turn.request.Valid()
    requires Explains(turn, s) && n <= |turn.acts|
    ensures other.request.Valid() && SameKind(turn.request, other.request) && Explains(other, s)
    ensures SameFiles(Run(s, other.acts), Run(s, turn.acts[..n]))
  {
    var q := turn.request;
    ContainWithin(q.fenced, q.r1, q.r2, q.recorded, q.audited, q.degraded);
    var cut, r1 := DyingInContain(s, turn.acts, n);
    var acts := ContainActs(cut.fenced, r1, [], cut.recorded, !cut.degraded, cut.degraded);
    other := Turn(Containment(q.agent, q.hooks, cut.fenced, r1, [], cut.recorded, !cut.degraded, cut.degraded), acts,
                  Answered(Run(s, acts).out.ContainReturned?));
  }

  lemma {:induction false} RecoveryCut(turn: Turn, s: Sys, n: nat) returns (other: Turn)
    requires Safe(s) && s.pc.Idle? && s.live.Up? && turn.request.Recovery? && turn.request.Valid()
    requires Explains(turn, s) && n <= |turn.acts|
    ensures other.request.Valid() && SameKind(turn.request, other.request) && Explains(other, s)
    ensures SameFiles(Run(s, other.acts), Run(s, turn.acts[..n]))
  {
    var q := turn.request;
    var f: RecoverRuns.Faults :|
      f == q.w.(released := f.released, recontained := f.recontained)
        && turn.acts == RecoverRuns.RecoverActs(s, q.auth, f);
    if Admissible(s, q.auth) {
      RecoverWithin(s, q.auth, f);
      var g := DyingInRecover(s, q.auth, turn.acts, n);
      var acts := RecoverRuns.RecoverActs(s, q.auth, g);
      assert g == g.(released := g.released, recontained := g.recontained);
      other := Turn(Recovery(q.agent, q.auth, g), acts, Answered(Run(s, acts).out.RecoverReturned?));
    } else {
      other := turn;
      QuietTurn(s, turn.acts, n);
    }
  }

  lemma {:induction false} RegistrationCut(turn: Turn, s: Sys, n: nat) returns (other: Turn)
    requires Safe(s) && s.pc.Idle? && turn.request.Registration?
    requires Explains(turn, s) && n <= |turn.acts|
    ensures SameKind(turn.request, other.request) && Explains(other, s)
    ensures SameFiles(Run(s, other.acts), Run(s, turn.acts[..n]))
  {
    var q := turn.request;
    var starts, admits, settles := q.starts && n > 1, q.admits && n > 2, q.settles && n > 3;
    DyingInRegister(s, None, q.starts, q.admits, q.settles, n);
    var acts := RegisterActs(None, starts, admits, settles);
    other := Turn(Registration(q.agent, starts, admits, settles), acts, Answered(Run(s, acts).out.RegisterReturned?));
  }

  lemma {:induction false} SuppliedCut(turn: Turn, s: Sys, n: nat) returns (other: Turn)
    requires Safe(s) && s.pc.Idle? && turn.request.SuppliedRegistration?
    requires Explains(turn, s) && n <= |turn.acts|
    ensures SameKind(turn.request, other.request) && Explains(other, s)
    ensures SameFiles(Run(s, other.acts), Run(s, turn.acts[..n]))
  {
    var q, w := turn.request, Built(turn.request.owner, s.next, turn.request.ops);
    var m: nat := if n > 0 then n - 1 else 0;
    var starts, admits, settles := q.starts && m > 1, q.admits && m > 2, q.settles && m > 3;
    var drawn, all := DrawElsewhere(w.next - s.next), RegisterActs(Some(w.rt), q.starts, q.admits, q.settles);
    var acts := RegisterActs(Some(w.rt), starts, admits, settles);
    SafeStep(s, drawn);
    DyingInRegister(Step(s, drawn), Some(w.rt), q.starts, q.admits, q.settles, m);
    assert ([drawn] + acts)[0] == drawn && ([drawn] + acts)[1..] == acts;
    if n > 0 {
      assert turn.acts[..n][0] == drawn && turn.acts[..n][1..] == all[..m];
    }
    other := Turn(SuppliedRegistration(q.agent, q.owner, q.ops, q.providers, q.replies, starts, admits, settles),
                  [drawn] + acts, Answered(Run(s, [drawn] + acts).out.RegisterReturned?));
  }

  /** Every crash point of every turn: after any of its steps the files are those that a turn of the same
      kind leaves when it is over. */
  lemma {:induction false} DyingIsAnotherTurn(a: string, turn: Turn, s: Sys, n: nat) returns (other: Turn)
    requires Safe(s) && s.pc.Idle? && TurnOf(a, turn, s) && n <= |turn.acts|
    ensures TurnOf(a, other, s) && SameKind(turn.request, other.request)
    ensures SameFiles(Run(s, other.acts), Run(s, turn.acts[..n]))
  {
    other := turn;
    var q := turn.request;
    if q.Restart? || q.agent != a {
      QuietTurn(s, turn.acts, n);
    } else if q.Containment? && s.live.Up? {
      other := ContainmentCut(turn, s, n);
    } else if q.Recovery? && s.live.Up? {
      other := RecoveryCut(turn, s, n);
    } else if q.Registration? {
      other := RegistrationCut(turn, s, n);
    } else if q.SuppliedRegistration? {
      other := SuppliedCut(turn, s, n);
    } else if q.Proof? {
      if n == 0 {
        other := Turn(q, [], AgentHistory.Refused);
        assert turn.acts[..0] == [];
      } else {
        assert turn.acts[..n] == turn.acts;
      }
    } else {
      OtherTurnsQuiet(turn, s);
      QuietTurn(s, turn.acts, n);
    }
  }

  lemma {:induction false} ThreadsQuiet(ops: seq<Op>)
    requires Stops(ops)
    ensures Quiet(Threads(ops))
  {
    if ops != [] {
      ThreadsQuiet(ops[1..]);
    }
  }

  lemma OtherTurnsQuiet(turn: Turn, s: Sys)
    requires turn.request.Valid() && Explains(turn, s)
    requires !turn.request.Registration? && !turn.request.SuppliedRegistration? && !turn.request.Proof?
    requires turn.request.Containment? || turn.request.Recovery? ==> s.live.Down?
    ensures Quiet(turn.acts)
  {
    if turn.request.Interference? {
      ThreadsQuiet(turn.request.ops);
    }
  }
}
