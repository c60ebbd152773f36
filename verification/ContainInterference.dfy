/** `contain` against threads that hold only the runtime's lock: exactly which interference leaves a
    pair of durable records that a restart refuses, at every crash point.
    Source: `ContainmentService.contain` in src/agent_containment/control.py. */
module ContainInterference {
  import opened Wrappers
  import opened IncidentRegistry
  import opened Protocol
  import opened ProtocolSafety
  import opened ProtocolRestart
  import opened ProtocolLiveness

  /** Whatever can happen while the call holds the service lock, short of the process dying. */
  predicate Meanwhile(a: Action) {
    a.Proceed? || a.Halt? || a.ContainDirectly? || a.AttachProof? || a.DrawElsewhere?
  }

  /** What has happened so far: the call's fence stands, its record was appended, and how often other
      threads moved the runtime between the epoch read and the report. */
  datatype Seen = Seen(fenced: bool, recorded: bool, hits: nat)

  function Watch(t: Sys, m: Seen, a: Action): Seen {
    if a.Proceed? && a.ok && t.pc.ContainFence? then m.(fenced := true)
    else if a.Proceed? && a.ok && t.pc.ContainRecord? && !Known(t.incs, IncidentId(t.agent, t.pc.target))
      then m.(recorded := true)
    else if (a.Halt? || a.ContainDirectly?) && InWindow(t.pc) then m.(hits := m.hits + 1)
    else m
  }

  function WatchRun(t: Sys, m: Seen, acts: seq<Action>): Seen
    decreases acts
  {
    if acts == [] then m else WatchRun(Step(t, acts[0]), Watch(t, m, acts[0]), acts[1..])
  }

  /** Before the call's own record: the older records leave room for one at `n`, or name it. */
  ghost predicate Unwritten(t: Sys, n: nat) {
    && Tidy(t)
    && (t.incs == [] ||
        var last := Latest(t.incs).value;
        last.epoch == n || (last.state == Recovered && n > last.epoch + 1))
  }

  /** After it: the last record is the call's own, at the epoch the report carried. */
  ghost predicate Appended(t: Sys, n: nat, reported: nat) {
    && HeldAt(t, reported) && t.incs[|t.incs| - 1].id == IncidentId(t.agent, n)
    && forall i :: 0 <= i < |t.incs| - 1 ==> t.incs[i].id != IncidentId(t.agent, n)
  }

  ghost predicate AtStage(t: Sys, m: Seen, n: nat)
    requires t.live.Up?
  {
    match t.pc
    case Idle => true
    case ContainFence(target) => target == n && !m.recorded && t.live.rt.epoch + 1 == n + m.hits
    case ContainRuntime(target) => target == n && !m.recorded && t.live.rt.epoch + 1 == n + m.hits
    case ContainReport(target) => target == n && !m.recorded && t.live.rt.epoch == n + m.hits
    case ContainRecord(target, reported) => target == n && !m.recorded && reported == n + m.hits
    case ContainAudit(target) => target == n
    case ContainDegrade(at) => IsLast(t, at) && (!m.recorded ==> Latest(t.incs).value.epoch == n)
    case _ => false
  }

  /** A containment that asked for epoch `n` is under way or over. */
  ghost predicate Underway(t: Sys, m: Seen, n: nat) {
    && Safe(t) && t.live.Up?
    && t.fence == (if m.fenced then Some(n) else None)
    && (if m.recorded then Appended(t, n, n + m.hits) else Unwritten(t, n))
    && AtStage(t, m, n)
  }

  /** The name of the call's record is free exactly when no older record is at its epoch. */
  lemma {:induction false} NameOf(t: Sys, n: nat)
    requires Unwritten(t, n)
    ensures Known(t.incs, IncidentId(t.agent, n)) <==> t.incs != [] && Latest(t.incs).value.epoch == n
    ensures Known(t.incs, IncidentId(t.agent, n)) ==> IsLast(t, Find(t.incs, IncidentId(t.agent, n)))
  {
    if Past(t, n) {
      UnknownPastLast(t, n);
    } else {
      FindsLast(t, n);
    }
  }

  lemma FindsAppended(t: Sys, n: nat, reported: nat)
    requires Appended(t, n, reported)
    ensures Known(t.incs, IncidentId(t.agent, n)) && IsLast(t, Find(t.incs, IncidentId(t.agent, n)))
  {
    assert t.incs[|t.incs| - 1].id == IncidentId(t.agent, n);
  }

  /** Restates an incident without renaming it. */
  lemma {:induction false} StateSet(t: Sys, u: Sys, m: Seen, n: nat, at: nat, state: IncidentState)
    requires if m.recorded then Appended(t, n, n + m.hits) else Unwritten(t, n)
    requires at < |t.incs| && u.agent == t.agent && u.incs == SetState(t.incs, at, state)
    requires state == IncidentState.Contained || state == ProofDegraded
    requires t.incs[at].state == Recovered ==> IsLast(t, at) && t.incs[at].epoch == n
    ensures if m.recorded then Appended(u, n, n + m.hits) else Unwritten(u, n)
  {
    assert SameLedger(t, u);
    if !m.recorded {
      TidyKept(t, u);
    }
  }

  lemma {:induction false} ContainProceeds(t: Sys, m: Seen, n: nat, ok: bool)
    requires Underway(t, m, n) && Containing(t.pc) && !t.pc.ContainDegrade?
    ensures Underway(Step(t, Proceed(ok)), Watch(t, m, Proceed(ok)), n)
  {
    SafeProceed(t, ok);
    if m.recorded {
      FindsAppended(t, n, n + m.hits);
    } else {
      NameOf(t, n);
    }
  }

  lemma {:induction false} DegradeProceeds(t: Sys, m: Seen, n: nat, ok: bool)
    requires Underway(t, m, n) && t.pc.ContainDegrade?
    ensures Underway(Step(t, Proceed(ok)), Watch(t, m, Proceed(ok)), n)
  {
    SafeProceed(t, ok);
    var u := Step(t, Proceed(ok));
    if ok {
      StateSet(t, u, m, n, t.pc.at, ProofDegraded);
    } else if !m.recorded {
      TidyKept(t, u);
    }
  }

  lemma {:induction false} ThreadSteps(t: Sys, m: Seen, n: nat, a: Action)
    requires Underway(t, m, n) && (a.Halt? || a.ContainDirectly? || a.DrawElsewhere?)
    ensures Underway(Step(t, a), Watch(t, m, a), n)
  {
    SafeStep(t, a);
    if !m.recorded {
      TidyKept(t, Step(t, a));
    }
  }

  lemma {:induction false} ProofAttached(t: Sys, m: Seen, n: nat, a: Action)
    requires Underway(t, m, n) && a.AttachProof?
    ensures Underway(Step(t, a), Watch(t, m, a), n)
  {
    SafeStep(t, a);
    if a.ok && a.at < |t.incs| && t.incs[a.at].state != Recovered {
      StateSet(t, Step(t, a), m, n, a.at, IncidentState.Contained);
    }
  }

  lemma {:induction false} UnderwayStep(t: Sys, m: Seen, n: nat, a: Action)
    requires Underway(t, m, n) && Meanwhile(a)
    ensures Underway(Step(t, a), Watch(t, m, a), n)
  {
    if a.Proceed? && t.pc.ContainDegrade? {
      DegradeProceeds(t, m, n, a.ok);
    } else if a.Proceed? && Containing(t.pc) {
      ContainProceeds(t, m, n, a.ok);
    } else if a.AttachProof? {
      ProofAttached(t, m, n, a);
    } else if !a.Proceed? {
      ThreadSteps(t, m, n, a);
    }
  }

  lemma {:induction false} UnderwayRun(t: Sys, m: Seen, n: nat, acts: seq<Action>)
    requires Underway(t, m, n) && forall i :: 0 <= i < |acts| ==> Meanwhile(acts[i])
    ensures Underway(Run(t, acts), WatchRun(t, m, acts), n)
    decreases acts
  {
    if acts != [] {
      UnderwayStep(t, m, n, acts[0]);
      UnderwayRun(Step(t, acts[0]), Watch(t, m, acts[0]), n, acts[1..]);
    }
  }

  lemma {:induction false} UnderwayCoherent(t: Sys, m: Seen, n: nat)
    requires Underway(t, m, n)
    ensures Coherent(t) <==> !(m.fenced && m.recorded && m.hits > 0)
  {
    if !m.recorded && t.fence.Some? && Past(t, n) {
      UnknownPastLast(t, n);
    }
  }

  /** Exactly when interference hurts. From a state in which `contain` is safe, after any steps of the
      call with any answers, any steps of other threads at any points, and wherever it is cut off:
      the pair is one a restart accepts, unless the call's fence stands, its record was appended, and
      another thread moved the runtime between the epoch read and the report. */
  lemma {:induction false} InterferenceIff(s: Sys, acts: seq<Action>)
    requires Ordered(s) && s.pc.Idle? && s.live.Up? && SafeToContain(s)
    requires forall i :: 0 <= i < |acts| ==> Meanwhile(acts[i])
    ensures var called := Step(s, CallContain); var seen := WatchRun(called, Seen(s.fence.Some?, false, 0), acts);
            Coherent(Run(called, acts)) <==> !(seen.fenced && seen.recorded && seen.hits > 0)
  {
    var called, n := Step(s, CallContain), s.live.rt.epoch + 1;
    SafeStep(s, CallContain);
    TidyKept(s, called);
    UnderwayRun(called, Seen(s.fence.Some?, false, 0), n, acts);
    UnderwayCoherent(Run(called, acts), WatchRun(called, Seen(s.fence.Some?, false, 0), acts), n);
  }
}
