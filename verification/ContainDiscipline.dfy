/** How exact the discipline of restart liveness is. */
module ContainDiscipline {
  import opened Wrappers
  import opened RuntimeModel
  import opened IncidentRegistry
  import opened Protocol
  import opened ProtocolSafety
  import opened ProtocolTheorems
  import opened ProtocolRestart
  import opened ProtocolLiveness

  function Answers(bits: seq<bool>): seq<Action> {
    if bits == [] then [] else [Proceed(bits[0])] + Answers(bits[1..])
  }

  /** One `contain` under any answers of the device, cut off after any step. */
  function ContainRun(bits: seq<bool>): seq<Action> {
    [CallContain] + Answers(bits)
  }

  lemma {:induction false} AnswersAllowed(s: Sys, bits: seq<bool>)
    ensures Disciplined(s, Answers(bits))
    decreases bits
  {
    if bits != [] {
      assert Answers(bits)[1..] == Answers(bits[1..]);
      AnswersAllowed(Step(s, Proceed(bits[0])), bits[1..]);
    }
  }

  lemma {:induction false} SafeContainStaysCoherent(s: Sys, bits: seq<bool>)
    requires Ordered(s) && s.pc.Idle? && s.live.Up? && SafeToContain(s)
    ensures Coherent(Run(s, ContainRun(bits)))
  {
    assert ContainRun(bits)[1..] == Answers(bits);
    AnswersAllowed(Step(s, CallContain), bits);
    OrderedRun(s, ContainRun(bits));
    OrderedIsCoherent(Run(s, ContainRun(bits)));
  }

  lemma RunAnswers(s: Sys, b: bool, bits: seq<bool>)
    ensures Run(s, Answers([b] + bits)) == Run(Step(s, Proceed(b)), Answers(bits))
  {
    assert ([b] + bits)[1..] == bits;
    assert Answers([b] + bits)[1..] == Answers(bits);
  }

  lemma {:induction false} RunContain(s: Sys, bits: seq<bool>)
    ensures Run(s, ContainRun(bits)) == Run(Step(s, CallContain), Answers(bits))
  {
    assert ContainRun(bits)[1..] == Answers(bits);
  }

  /** Only the fence is written. */
  lemma {:induction false} FenceOnly(s: Sys)
    requires s.pc.Idle? && s.live.Up?
    ensures var t := Run(s, ContainRun([true]));
            t.fence == Some(s.live.rt.epoch + 1) && t.incs == s.incs && t.agent == s.agent
  {
    RunContain(s, [true]);
    assert [true] == [true] + [];
    RunAnswers(Step(s, CallContain), true, []);
  }

  lemma {:induction false} RunSixAnswers(s: Sys, b0: bool, b1: bool, b2: bool, b3: bool, b4: bool, b5: bool)
    ensures Run(s, Answers([b0, b1, b2, b3, b4, b5]))
         == Step(Step(Step(Step(Step(Step(s, Proceed(b0)), Proceed(b1)), Proceed(b2)), Proceed(b3)), Proceed(b4)),
                 Proceed(b5))
  {
    var s1 := Step(s, Proceed(b0));
    var s2 := Step(s1, Proceed(b1));
    var s3 := Step(s2, Proceed(b2));
    var s4 := Step(s3, Proceed(b3));
    var s5 := Step(s4, Proceed(b4));
    calc {
      Run(s, Answers([b0, b1, b2, b3, b4, b5]));
      { assert [b0, b1, b2, b3, b4, b5] == [b0] + [b1, b2, b3, b4, b5]; RunAnswers(s, b0, [b1, b2, b3, b4, b5]); }
      Run(s1, Answers([b1, b2, b3, b4, b5]));
      { assert [b1, b2, b3, b4, b5] == [b1] + [b2, b3, b4, b5]; RunAnswers(s1, b1, [b2, b3, b4, b5]); }
      Run(s2, Answers([b2, b3, b4, b5]));
      { assert [b2, b3, b4, b5] == [b2] + [b3, b4, b5]; RunAnswers(s2, b2, [b3, b4, b5]); }
      Run(s3, Answers([b3, b4, b5]));
      { assert [b3, b4, b5] == [b3] + [b4, b5]; RunAnswers(s3, b3, [b4, b5]); }
      Run(s4, Answers([b4, b5]));
      { assert [b4, b5] == [b4] + [b5]; RunAnswers(s4, b4, [b5]); }
      Run(s5, Answers([b5]));
      { assert [b5] == [b5] + []; RunAnswers(s5, b5, []); }
      Step(s5, Proceed(b5));
    }
  }

  /** `contain` up to the moment its incident is about to be written, with nobody interfering. */
  lemma StepsToRecord(s: Sys, fenced: bool)
    requires s.pc.Idle? && s.live.Up?
    ensures var n := s.live.rt.epoch + 1;
            Step(Step(Step(Step(s, CallContain), Proceed(fenced)), Proceed(true)), Proceed(true))
            == s.(fence := if fenced then Some(n) else s.fence, live := s.live.(rt := s.live.rt.Contain(s.next)),
                  next := s.next + 1, pc := ContainRecord(n, n))
  {}

  /** The runtime once `contain` has stopped it, with other threads getting in before (`r1`) and after
      (`r2`). */
  function Stopping(w: World, r1: seq<Op>, r2: seq<Op>): World {
    ApplyAll(Apply(ApplyAll(w, r1), OpContain), r2)
  }

  /** The part of a call in which other threads count: between the epoch read and the report. */
  function StoppingActs(fenced: bool, r1: seq<Op>, r2: seq<Op>): seq<Action>
    requires Stops(r1) && Stops(r2)
  {
    [CallContain, Proceed(fenced)] + Threads(r1) + [Proceed(true)] + Threads(r2) + [Proceed(true)]
  }

  /** One call of `contain`: what the devices and the audit log answer, and what other threads do to
      the runtime before and after the call stops it. */
  function ContainActs(fenced: bool, r1: seq<Op>, r2: seq<Op>, recorded: bool, audited: bool,
                       degraded: bool): seq<Action>
    requires Stops(r1) && Stops(r2)
  {
    StoppingActs(fenced, r1, r2) + [Proceed(recorded)] + [Proceed(audited)] + [Proceed(degraded)]
  }

  /** Up to the fence write, and on to the runtime fence. */
  lemma {:induction false} RunToFence(s: Sys, fenced: bool)
    requires s.pc.Idle? && s.live.Up?
    ensures var n := s.live.rt.epoch + 1;
            Run(s, [CallContain, Proceed(fenced)])
              == s.(fence := if fenced then Some(n) else s.fence, pc := ContainRuntime(n))
  {
    RunOne(s, CallContain);
    RunLast(s, [CallContain], Proceed(fenced));
    assert [CallContain] + [Proceed(fenced)] == [CallContain, Proceed(fenced)];
  }

  lemma {:induction false} RunThreadsThenProceed(s: Sys, ops: seq<Op>)
    requires s.live.Up? && Stops(ops)
    ensures Run(s, Threads(ops) + [Proceed(true)]) == Step(Disturbed(s, ops), Proceed(true))
  {
    RunThreads(s, ops);
    RunLast(s, Threads(ops), Proceed(true));
  }

  lemma {:induction false} RunStopping(s: Sys, fenced: bool, r1: seq<Op>, r2: seq<Op>)
    requires s.pc.Idle? && s.live.Up? && Stops(r1) && Stops(r2)
    ensures var n := s.live.rt.epoch + 1; var w := Stopping(World(s.live.rt, s.next), r1, r2);
            Run(s, StoppingActs(fenced, r1, r2))
            == s.(fence := if fenced then Some(n) else s.fence, live := s.live.(rt := w.rt), next := w.next,
                  pc := ContainRecord(n, w.rt.epoch))
  {
    var start, x, y := [CallContain, Proceed(fenced)], Threads(r1) + [Proceed(true)], Threads(r2) + [Proceed(true)];
    RunToFence(s, fenced);
    var s1 := Run(s, start);
    RunThreadsThenProceed(s1, r1);
    var s2 := Run(s1, x);
    RunThreadsThenProceed(s2, r2);
    RunAppend(s, start, x);
    RunAppend(s, start + x, y);
    assert StoppingActs(fenced, r1, r2) == (start + x) + y;
  }

  /** The incidents once `contain` has recorded its own and, if the audit log failed, degraded it. */
  function Written(agent: string, incs: seq<Inc>, target: nat, reported: nat, recorded: bool): seq<Inc> {
    if recorded && !Known(incs, IncidentId(agent, target)) then Recorded(agent, incs, target, reported) else incs
  }

  function Audited(agent: string, incs: seq<Inc>, target: nat, audited: bool, degraded: bool): seq<Inc> {
    var id := IncidentId(agent, target);
    if !audited && degraded && Known(incs, id) then SetState(incs, Find(incs, id), ProofDegraded) else incs
  }

  lemma AfterRecord(t: Sys, recorded: bool, audited: bool, degraded: bool)
    requires t.pc.ContainRecord? && t.live.Up?
    ensures var n := t.pc.target;
            var incs := Written(t.agent, t.incs, n, t.pc.reported, recorded);
            Step(Step(Step(t, Proceed(recorded)), Proceed(audited)), Proceed(degraded))
            == t.(incs := Audited(t.agent, incs, n, audited, degraded), pc := Idle,
                  out := if !audited && !degraded && Known(incs, IncidentId(t.agent, n)) then ContainRaised
                    else ContainReturned)
  {
    var u := Step(t, Proceed(recorded));
    assert u == t.(incs := Written(t.agent, t.incs, t.pc.target, t.pc.reported, recorded),
                   pc := ContainAudit(t.pc.target));
    var v := Step(u, Proceed(audited));
    assert v.pc.Idle? || v == u.(pc := ContainDegrade(Find(u.incs, IncidentId(t.agent, t.pc.target))));
  }

  /** What one call of `contain` does to the agent, whatever fails and whoever interferes. */
  function Contained(s: Sys, fenced: bool, r1: seq<Op>, r2: seq<Op>, recorded: bool, audited: bool, degraded: bool): Sys
    requires s.live.Up?
  {
    var n := s.live.rt.epoch + 1;
    var w := Stopping(World(s.live.rt, s.next), r1, r2);
    var incs := Written(s.agent, s.incs, n, w.rt.epoch, recorded);
    s.(fence := if fenced then Some(n) else s.fence, live := s.live.(rt := w.rt), next := w.next,
       incs := Audited(s.agent, incs, n, audited, degraded),
       out := if !audited && !degraded && Known(incs, IncidentId(s.agent, n)) then ContainRaised else ContainReturned)
  }

  lemma {:induction false} ContainResult(s: Sys, fenced: bool, r1: seq<Op>, r2: seq<Op>, recorded: bool, audited: bool,
                                         degraded: bool)
    requires s.pc.Idle? && s.live.Up? && Stops(r1) && Stops(r2)
    ensures Run(s, ContainActs(fenced, r1, r2, recorded, audited, degraded))
         == Contained(s, fenced, r1, r2, recorded, audited, degraded)
  {
    var acts := StoppingActs(fenced, r1, r2);
    RunStopping(s, fenced, r1, r2);
    RunLast(s, acts, Proceed(recorded));
    RunLast(s, acts + [Proceed(recorded)], Proceed(audited));
    RunLast(s, acts + [Proceed(recorded)] + [Proceed(audited)], Proceed(degraded));
    AfterRecord(Run(s, acts), recorded, audited, degraded);
  }

  /** What one call of `contain` leaves, whatever fails and whoever interferes. The fence names the epoch the
      call asked for, if it could be written. The runtime is stopped, one epoch on for the call and one for
      each transition of another thread. One incident is filed under the epoch asked for, at the epoch the
      runtime was left in, unless the device failed or there is one already; and the incident so filed is
      degraded if the audit log failed, or the call raises. */
  predicate ContainmentLeaves(s: Sys, fenced: bool, r1: seq<Op>, r2: seq<Op>, recorded: bool, audited: bool,
                              degraded: bool, returned: bool, t: Sys)
    requires s.live.Up?
  {
    var asked := s.live.rt.epoch + 1; var left := asked + |r1| + |r2|; var id := IncidentId(s.agent, asked);
    var filed := exists i :: 0 <= i < |s.incs| && s.incs[i].id == id;
    var state := if audited || !degraded then IncidentState.Contained else ProofDegraded;
    && t.fence == (if fenced then Some(asked) else s.fence)
    && t.live.Up? && t.live.capability == s.live.capability
    && t.live.rt.capability == s.live.rt.capability && t.live.rt.agentId == s.live.rt.agentId
    && t.live.rt.epoch == left
    && t.live.rt.state == (if r2 == [] || r2[|r2| - 1].OpContain? then RuntimeState.Contained else Halted)
    && (!filed && recorded ==> t.incs == s.incs + [Inc(id, state, left, None)])
    && (!filed && !recorded ==> t.incs == s.incs)
    && (filed ==>
          exists k :: 0 <= k < |s.incs| && s.incs[k].id == id && (forall i :: 0 <= i < k ==> s.incs[i].id != id)
            && t.incs == if audited || !degraded then s.incs else s.incs[k := s.incs[k].(state := ProofDegraded)])
    && (returned <==> audited || degraded || (!filed && !recorded))
  }

  lemma {:induction false} LastStop(w: World, ops: seq<Op>)
    requires Stops(ops) && ops != []
    ensures ApplyAll(w, ops).rt.state == if ops[|ops| - 1].OpContain? then RuntimeState.Contained else Halted
    decreases ops
  {
    if |ops| > 1 {
      LastStop(Apply(w, ops[0]), ops[1..]);
    } else {
      assert ops[1..] == [];
    }
  }

  lemma StoppedAt(w: World, r1: seq<Op>, r2: seq<Op>)
    requires Stops(r1) && Stops(r2)
    ensures var rt := Stopping(w, r1, r2).rt;
            && rt.epoch == w.rt.epoch + 1 + |r1| + |r2|
            && rt.capability == w.rt.capability && rt.agentId == w.rt.agentId
            && rt.state == if r2 == [] || r2[|r2| - 1].OpContain? then RuntimeState.Contained else Halted
  {
    StopsCount(w, r1);
    var stopped := Apply(ApplyAll(w, r1), OpContain);
    StopsCount(stopped, r2);
    if r2 != [] {
      LastStop(stopped, r2);
    }
  }

  lemma {:induction false} FindIsFirst(incs: seq<Inc>, id: string)
    requires Known(incs, id)
    ensures var k := Find(incs, id); incs[k].id == id && forall i :: 0 <= i < k ==> incs[i].id != id
  {
    if incs[0].id != id {
      assert Known(incs[1..], id) by {
        var i :| 0 <= i < |incs| && incs[i].id == id;
        assert incs[1..][i - 1].id == id;
      }
      FindIsFirst(incs[1..], id);
    }
  }

  lemma {:induction false} FiledLast(incs: seq<Inc>, x: Inc)
    requires !Known(incs, x.id)
    ensures Known(incs + [x], x.id) && Find(incs + [x], x.id) == |incs|
  {
    var all := incs + [x];
    assert all[|incs|].id == x.id;
    FindIsFirst(all, x.id);
  }

  /** The incidents, before and after. */
  lemma {:induction false} IncidentsLeft(agent: string, incs: seq<Inc>, asked: nat, left: nat, recorded: bool,
                                         audited: bool, degraded: bool)
    ensures var id := IncidentId(agent, asked); var written := Written(agent, incs, asked, left, recorded);
            var after := Audited(agent, written, asked, audited, degraded);
            var filed := exists i :: 0 <= i < |incs| && incs[i].id == id;
            var state := if audited || !degraded then IncidentState.Contained else ProofDegraded;
            && (Known(written, id) <==> filed || recorded)
            && (!filed && recorded ==> after == incs + [Inc(id, state, left, None)])
            && (!filed && !recorded ==> after == incs)
            && (filed ==>
                  exists k :: 0 <= k < |incs| && incs[k].id == id && (forall i :: 0 <= i < k ==> incs[i].id != id)
                    && after == if audited || !degraded then incs else incs[k := incs[k].(state := ProofDegraded)])
  {
    var id := IncidentId(agent, asked);
    if Known(incs, id) {
      FindIsFirst(incs, id);
    } else if recorded {
      FiledLast(incs, Inc(id, IncidentState.Contained, left, None));
    }
  }

  lemma ContainedLeaves(s: Sys, fenced: bool, r1: seq<Op>, r2: seq<Op>, recorded: bool, audited: bool, degraded: bool)
    requires s.pc.Idle? && s.live.Up? && Stops(r1) && Stops(r2)
    ensures var t := Contained(s, fenced, r1, r2, recorded, audited, degraded);
            && t.pc.Idle? && t.agent == s.agent && t.out in {ContainReturned, ContainRaised}
            && ContainmentLeaves(s, fenced, r1, r2, recorded, audited, degraded, t.out == ContainReturned, t)
  {
    var asked := s.live.rt.epoch + 1;
    StoppedAt(World(s.live.rt, s.next), r1, r2);
    IncidentsLeft(s.agent, s.incs, asked, asked + |r1| + |r2|, recorded, audited, degraded);
  }

  /** Every call of `contain` leaves that. */
  lemma {:induction false} ContainLeaves(s: Sys, fenced: bool, r1: seq<Op>, r2: seq<Op>, recorded: bool, audited: bool,
                                         degraded: bool)
    requires s.pc.Idle? && s.live.Up? && Stops(r1) && Stops(r2)
    ensures var t := Run(s, ContainActs(fenced, r1, r2, recorded, audited, degraded));
            && t.pc.Idle? && t.agent == s.agent && t.out in {ContainReturned, ContainRaised}
            && ContainmentLeaves(s, fenced, r1, r2, recorded, audited, degraded, t.out == ContainReturned, t)
  {
    ContainResult(s, fenced, r1, r2, recorded, audited, degraded);
    ContainedLeaves(s, fenced, r1, r2, recorded, audited, degraded);
  }

  /** The fence write fails, the incident is written; `audited` says how the audit log answers. */
  lemma {:induction false} IncidentOnly(s: Sys, audited: bool)
    requires s.pc.Idle? && s.live.Up?
    ensures var n := s.live.rt.epoch + 1; var id := IncidentId(s.agent, n);
            var t := Run(s, ContainRun([false, true, true, true, audited, true]));
            && t.fence == s.fence && t.agent == s.agent
            && (!Known(s.incs, id) && audited ==> t.incs == Recorded(s.agent, s.incs, n, n))
            && (Known(s.incs, id) && !audited ==> t.incs == SetState(s.incs, Find(s.incs, id), ProofDegraded))
  {
    RunContain(s, [false, true, true, true, audited, true]);
    RunSixAnswers(Step(s, CallContain), false, true, true, true, audited, true);
    StepsToRecord(s, false);
    AfterRecord(Step(Step(Step(Step(s, CallContain), Proceed(false)), Proceed(true)), Proceed(true)), true, audited,
                true);
  }

  /** Otherwise some schedule of failures and some crash point leave a pair `register` refuses. */
  lemma {:induction false} UnsafeContainWitness(s: Sys) returns (bits: seq<bool>)
    requires Ordered(s) && s.pc.Idle? && s.live.Up? && !SafeToContain(s)
    ensures !Coherent(Run(s, ContainRun(bits)))
  {
    var n := s.live.rt.epoch + 1;
    FenceOnly(s);
    bits := [true];
    if Coherent(Run(s, ContainRun([true]))) {
      if Past(s, n) {
        UnknownPastLast(s, n);
        IncidentOnly(s, true);
        bits := [false, true, true, true, true, true];
      } else {
        FindsLast(s, n);
        IncidentOnly(s, false);
        bits := [false, true, true, true, false, true];
      }
    }
  }

  /** One `contain` is safe against every failure and every crash point exactly when the caller
      could have seen that it is. */
  lemma {:induction false} ContainSafeIff(s: Sys)
    requires Ordered(s) && s.pc.Idle? && s.live.Up?
    ensures SafeToContain(s) <==> forall bits :: Coherent(Run(s, ContainRun(bits)))
  {
    if SafeToContain(s) {
      forall bits ensures Coherent(Run(s, ContainRun(bits))) {
        SafeContainStaysCoherent(s, bits);
      }
    } else {
      var bits := UnsafeContainWitness(s);
    }
  }

  /** What such a containment writes: the fence it asked for, and an incident one epoch on. */
  lemma {:induction false} HaltInWindowWrites(s: Sys, r1: seq<Op>)
    requires s.pc.Idle? && s.live.Up? && !Known(s.incs, IncidentId(s.agent, s.live.rt.epoch + 1)) && r1 == [OpHalt]
    ensures var n := s.live.rt.epoch + 1; var t := Run(s, ContainActs(true, r1, [], true, true, true));
            t.fence == Some(n) && t.agent == s.agent && t.incs == Recorded(s.agent, s.incs, n, n + 1)
  {
    ContainLeaves(s, true, r1, [], true, true, true);
  }

  /** The failing input of `ContainInterference.InterferenceIff`: both writes succeed, and a thread
      halts the runtime in between. */
  lemma {:induction false} HaltInWindowBreaksRestart(s: Sys)
    requires Ordered(s) && s.pc.Idle? && s.live.Up? && Quiet(s)
    ensures var t := Run(s, ContainActs(true, [OpHalt], [], true, true, true));
            && t.fence == Some(s.live.rt.epoch + 1)
            && HeldAt(t, s.live.rt.epoch + 2)
            && !Coherent(t)
  {
    UnknownPastLast(s, s.live.rt.epoch + 1);
    HaltInWindowWrites(s, [OpHalt]);
  }

  // ----- at most one contain between activations -----

  /** Set when the runtime becomes executable, cleared when containment is requested or when a
      registration leaves the runtime held. */
  predicate Rearm(s: Sys, armed: bool, a: Action) {
    var t := Step(s, a);
    if a.CallContain? && s.pc.Idle? && s.live.Up? then false
    else if s.live.Down? && t.live.Up? then Executable(t)
    else armed || (!Executable(s) && Executable(t))
  }

  predicate OncePerActivation(s: Sys, armed: bool, acts: seq<Action>)
    decreases acts
  {
    acts == [] ||
    (&& (acts[0].CallContain? && s.pc.Idle? && s.live.Up? ==> armed)
     && (acts[0].Halt? || acts[0].ContainDirectly? ==> !InWindow(s.pc))
     && OncePerActivation(Step(s, acts[0]), Rearm(s, armed, acts[0]), acts[1..]))
  }

  predicate ArmedIsQuiet(s: Sys, armed: bool) {
    armed && s.live.Up? ==> Quiet(s) && (s.pc.Idle? || s.pc.RecRotate?)
  }

  lemma ArmedRegister(s: Sys, armed: bool, ok: bool)
    requires Safe(s) && ArmedIsQuiet(s, armed) && Registering(s.pc)
    ensures ArmedIsQuiet(Step(s, Proceed(ok)), Rearm(s, armed, Proceed(ok)))
  {
    if s.pc.RegInstall? {
      SafeRegisterEnd(s, ok);
    }
  }

  lemma ArmedRecover(s: Sys, armed: bool, ok: bool)
    requires Safe(s) && ArmedIsQuiet(s, armed) && Recovering(s.pc)
    ensures ArmedIsQuiet(Step(s, Proceed(ok)), Rearm(s, armed, Proceed(ok)))
  {
    if s.pc.RecActivate? {
      SafeRecoverActivate(s, ok);
    } else if s.pc.RecRotate? {
      SafeRecoverEnd(s, ok);
    }
  }

  lemma {:induction false} ArmedStep(s: Sys, armed: bool, a: Action)
    requires Safe(s) && ArmedIsQuiet(s, armed)
    requires a.CallContain? && s.pc.Idle? && s.live.Up? ==> armed
    ensures ArmedIsQuiet(Step(s, a), Rearm(s, armed, a))
  {
    if a.Proceed? && Registering(s.pc) {
      ArmedRegister(s, armed, a.ok);
    } else if a.Proceed? && Recovering(s.pc) {
      ArmedRecover(s, armed, a.ok);
    }
  }

  /** Requesting containment at most once per activation is disciplined. */
  lemma {:induction false} OncePerActivationIsDisciplined(s: Sys, armed: bool, acts: seq<Action>)
    requires Safe(s) && ArmedIsQuiet(s, armed) && OncePerActivation(s, armed, acts)
    ensures Disciplined(s, acts)
    decreases acts
  {
    if acts != [] {
      SafeStep(s, acts[0]);
      ArmedStep(s, armed, acts[0]);
      OncePerActivationIsDisciplined(Step(s, acts[0]), Rearm(s, armed, acts[0]), acts[1..]);
    }
  }

  /** Restart liveness for that use: an unambiguous pair restarts, CONTAINED at its epoch if there is
      any mark; an ambiguous one restarts with the runtime that settles it. */
  lemma {:induction false} OncePerActivationRestarts(s0: Sys, acts: seq<Action>, rt: Rt)
    requires Fresh(s0) && s0.agent != "" && OncePerActivation(s0, false, acts)
    ensures var c := Step(Run(s0, acts), Crash); var anew := Run(c, RegisterRun(None));
            var given := Run(c, RegisterRun(Some(rt)));
            && Coherent(c)
            && (!Ambiguous(c) ==> anew.live.Up?)
            && (!Ambiguous(c) && Marked(c) ==>
                  anew.live.rt.state == RuntimeState.Contained && anew.live.rt.epoch == HoldingEpoch(c))
            && (Ambiguous(c) && Drawn(c, rt) ==>
                  var e := Latest(c.incs).value.epoch;
                  && (rt.CanExecute() && rt.epoch == e + 1 ==> Executable(given))
                  && (rt.state == RuntimeState.Contained && rt.epoch == e ==>
                        given.live.Up? && given.live.rt.state == RuntimeState.Contained && HeldAt(given, e)
                          && given.fence == Some(e)))
  {
    OncePerActivationIsDisciplined(s0, false, acts);
    RestartLiveness(s0, acts, rt);
    var c := Step(Run(s0, acts), Crash);
    RestartAcceptedIff(c);
    if Ambiguous(c) && Drawn(c, rt) {
      AmbiguousRestartAcceptedIff(c, rt);
    }
  }

  // ----- why a registration that leaves the runtime held counts -----

  /** Dying after a recovery has returned, and aborting it with the contained runtime. */
  lemma {:induction false} AbortedRecovery(t: Sys, rt: Rt)
    requires Ordered(t) && t.pc.Idle? && t.agent != "" && Ambiguous(t) && Drawn(t, rt)
    requires rt.state == RuntimeState.Contained && rt.epoch == Latest(t.incs).value.epoch
    ensures var u := Run(t, [Crash] + RegisterRun(Some(rt))); var e := rt.epoch;
            && Ordered(u) && u.pc.Idle? && u.live.Up?
            && u.live.rt.state == RuntimeState.Contained && u.live.rt.epoch == e
            && HeldAt(u, e) && u.fence == Some(e)
  {
    var c := Step(t, Crash);
    var acts := RegisterRun(Some(rt));
    OrderedStep(t, Crash);
    AmbiguousRestartAcceptedIff(c, rt);
    assert ([Crash] + acts)[1..] == acts;
    assert Disciplined(Step(c, acts[0]), acts[1..]) by {
      assert acts[1..] == Answers([true, true, true, true]);
      AnswersAllowed(Step(c, acts[0]), [true, true, true, true]);
    }
    OrderedRun(c, acts);
  }

  /** Counting containments between activations alone is not enough. A recovery has just returned, so the
      agent is active and nothing has asked for its containment since; then the process dies, a restart
      aborts the recovery with the contained runtime, and the one `contain` that follows can be cut off so
      that the next restart refuses the pair. */
  lemma {:induction false} PlainCountingFails(t: Sys, e: nat, rt: Rt) returns (bits: seq<bool>)
    requires Ordered(t) && t.pc.Idle? && t.agent != "" && RecoveryEnded(t, e) && t.out.RecoverReturned?
    requires Drawn(t, rt) && rt.state == RuntimeState.Contained && rt.epoch == e
    ensures var u := Run(t, [Crash] + RegisterRun(Some(rt)));
            && u.pc.Idle? && u.live.Up? && !SafeToContain(u)
            && !Coherent(Run(u, ContainRun(bits)))
  {
    AbortedRecovery(t, rt);
    bits := UnsafeContainWitness(Run(t, [Crash] + RegisterRun(Some(rt))));
  }

  // ----- a restarted agent can be recovered -----

  function RecoverRun(auth: Auth): seq<Action> {
    [CallRecover(auth), Proceed(true), Proceed(true), Proceed(true), Proceed(true)]
  }

  /** Restarting from any coherent, unambiguous marked pair leads to an authorization and, if
      nothing fails and nobody interferes, back to an active runtime one epoch on. */
  lemma {:induction false} RestartedAgentRecovers(c: Sys)
    requires Safe(c) && Stopped(c) && Coherent(c) && !Ambiguous(c) && Marked(c)
    ensures var r := Run(c, RegisterRun(None));
            && Issue(r, true).Some?
            && var t := Step(Run(r, RecoverRun(Issue(r, true).value)), Proceed(true));
            && t.out == RecoverReturned(HoldingEpoch(c) + 1)
            && Executable(t) && t.live.rt.epoch == HoldingEpoch(c) + 1
            && Unheld(t)
  {
    RestartAcceptedIff(c);
    SafeRun(c, RegisterRun(None));
    var r := Run(c, RegisterRun(None));
    var auth := Issue(r, true).value;
    RunFive(r, CallRecover(auth), Proceed(true), Proceed(true), Proceed(true), Proceed(true));
    RecoveryUninterrupted(r, HoldingEpoch(c));
  }

  /** The first half of a recovery in which nothing fails and nobody interferes. */
  lemma RecoveryAdmitted(r: Sys, e: nat)
    requires r.pc.Idle? && r.live.Up? && HeldAt(r, e) && r.live.rt.state == RuntimeState.Contained
             && r.live.rt.epoch == e
    ensures var at := |r.incs| - 1;
            Step(Step(Step(Step(r, CallRecover(Auth(r.agent, e, r.live.capability))), Proceed(true)), Proceed(true)),
                 Proceed(true))
            == r.(fence := None, incs := Admit(r.incs, at), pc := RecActivate(e, at))
  {
    var at := |r.incs| - 1;
    var s1 := Step(Step(r, CallRecover(Auth(r.agent, e, r.live.capability))), Proceed(true));
    assert s1 == r.(fence := None, pc := RecRelease(e, at));
    assert Step(s1, Proceed(true)) == r.(fence := None, pc := RecMark(e, at));
  }

  /** All of it. */
  lemma RecoveryUninterrupted(r: Sys, e: nat)
    requires Safe(r) && r.pc.Idle? && r.live.Up? && HeldAt(r, e)
    requires r.live.rt.state == RuntimeState.Contained && r.live.rt.epoch == e
    ensures var auth := Auth(r.agent, e, r.live.capability);
            var s4 := Step(Step(Step(Step(Step(r, CallRecover(auth)), Proceed(true)), Proceed(true)), Proceed(true)),
                           Proceed(true));
            var t := Step(s4, Proceed(true));
            t.out == RecoverReturned(e + 1) && Executable(t) && t.live.rt.epoch == e + 1 && Unheld(t)
  {
    var at := |r.incs| - 1;
    RecoveryAdmitted(r, e);
    var s3 := r.(fence := None, incs := Admit(r.incs, at), pc := RecActivate(e, at));
    var s4 := Step(s3, Proceed(true));
    assert s4.pc == RecRotate(e + 1) && s4.live.Up? && s4.live.rt.CanExecute() && s4.incs == s3.incs;
  }
}
