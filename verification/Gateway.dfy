/** The gateway between an agent and its tools, as any number of calls that take their steps one at a
    time while other threads halt, contain, recover and restore the runtime.
    Source: src/agent_containment/gateway.py over runtime.py and policy.py. */
module Gateway {
  import opened Wrappers
  import opened RuntimeModel
  import opened Policy

  /** The three execute paths: `execute`, `execute_with_lease` and `execute_egress`. The last two are
      handed a lease by their caller. */
  datatype Kind = Plain | Presented(lease: Lease) | PresentedEgress(lease: Lease)

  datatype Stage =
    // about to check the agent's id, and to take a lease or to validate the one presented
    | Entered
    // about to check that the runtime is executable
    | Gating(held: Option<Lease>)
    // about to ask the policy
    | Judging(held: Option<Lease>)
    // about to halt the runtime
    | Halting
    // about to start the effect, if the lease still stands
    | Starting(lease: Lease)
    | Finished

  datatype Call = Call(action: Action, kind: Kind, stage: Stage)

  datatype Effect = Effect(call: nat, action: Action, lease: Lease)

  datatype Gate = Gate(world: World, config: Config, trace: seq<string>, calls: seq<Call>, effects: seq<Effect>)

  datatype Event =
    | Arrive(action: Action, kind: Kind)
    | Move(c: nat)
    | Interfere(op: Op)
    | Forget

  function SetStage(g: Gate, c: nat, stage: Stage): Gate
    requires c < |g.calls|
  {
    g.(calls := g.calls[c := g.calls[c].(stage := stage)])
  }

  function Enter(g: Gate, c: nat): Gate
    requires c < |g.calls|
  {
    var call := g.calls[c];
    if call.action.agentId != g.world.rt.agentId then SetStage(g, c, Finished)
    else if call.kind.Plain? then SetStage(g, c, Gating(g.world.rt.AcquireLease()))
    else if g.world.rt.LeaseValid(call.kind.lease) then SetStage(g, c, Gating(Some(call.kind.lease)))
    else SetStage(g, c, Finished)
  }

  ghost function Decide(g: Gate, c: nat, held: Option<Lease>): Gate
    requires c < |g.calls|
  {
    var verdict := Judge(g.config, g.trace, g.calls[c].action);
    SetStage(g.(trace := verdict.trace), c,
             if verdict.decision == Allow then (if held.Some? then Starting(held.value) else Finished)
             else if verdict.decision == Halt then Halting
             else Finished)
  }

  ghost function Take(g: Gate, c: nat): Gate
    requires c < |g.calls|
  {
    match g.calls[c].stage
    case Entered => Enter(g, c)
    case Gating(held) => SetStage(g, c, if g.world.rt.CanExecute() then Judging(held) else Finished)
    case Judging(held) => Decide(g, c, held)
    case Halting => SetStage(g.(world := Apply(g.world, OpHalt)), c, Finished)
    case Starting(lease) =>
      if g.world.rt.LeaseValid(lease)
      then SetStage(g.(effects := g.effects + [Effect(c, g.calls[c].action, lease)]), c, Finished)
      else SetStage(g, c, Finished)
    case Finished => g
  }

  ghost function Step(g: Gate, e: Event): Gate {
    match e
    case Arrive(action, kind) => g.(calls := g.calls + [Call(action, kind, Entered)])
    case Move(c) => if c < |g.calls| then Take(g, c) else g
    case Interfere(op) => g.(world := Apply(g.world, op))
    case Forget => g.(trace := [])
  }

  ghost function Run(g: Gate, events: seq<Event>): Gate
    decreases events
  {
    if events == [] then g else Run(Step(g, events[0]), events[1..])
  }

  lemma {:induction false} RunLast(g: Gate, events: seq<Event>, e: Event)
    ensures Run(g, events + [e]) == Step(Run(g, events), e)
    decreases events
  {
    if events == [] {
      assert ([] + [e])[1..] == [];
    } else {
      assert (events + [e])[1..] == events[1..] + [e];
      RunLast(Step(g, events[0]), events[1..], e);
    }
  }

  lemma {:induction false} RunSplit(g: Gate, events: seq<Event>, i: nat)
    requires i <= |events|
    ensures Run(g, events) == Run(Run(g, events[..i]), events[i..])
    decreases i
  {
    if i > 0 {
      assert events[1..][..i - 1] == events[..i][1..];
      assert events[1..][i - 1..] == events[i..];
      RunSplit(Step(g, events[0]), events[1..], i - 1);
    } else {
      assert events[..0] == [] && events[0..] == events;
    }
  }

  /** What the event does to the runtime. */
  function OpsOf(g: Gate, e: Event): seq<Op> {
    match e
    case Interfere(op) => [op]
    case Move(c) => if c < |g.calls| && g.calls[c].stage.Halting? then [OpHalt] else []
    case _ => []
  }

  ghost function RunOps(g: Gate, events: seq<Event>): seq<Op>
    decreases events
  {
    if events == [] then [] else OpsOf(g, events[0]) + RunOps(Step(g, events[0]), events[1..])
  }

  /** The runtime made no transition during the events, by whichever thread. */
  ghost predicate Undisturbed(g: Gate, events: seq<Event>) {
    !Transitioned(g.world, RunOps(g, events))
  }

  lemma {:induction false} StepWorld(g: Gate, e: Event, rest: seq<Op>)
    ensures ApplyAll(g.world, OpsOf(g, e) + rest) == ApplyAll(Step(g, e).world, rest)
    ensures Step(g, e).config == g.config
  {
    var ops := OpsOf(g, e);
    if ops != [] {
      assert (ops + rest)[1..] == rest;
    } else {
      assert ops + rest == rest;
    }
  }

  lemma {:induction false} RunWorld(g: Gate, events: seq<Event>)
    ensures Run(g, events).world == ApplyAll(g.world, RunOps(g, events))
    ensures Run(g, events).config == g.config
    decreases events
  {
    if events != [] {
      RunWorld(Step(g, events[0]), events[1..]);
      StepWorld(g, events[0], RunOps(Step(g, events[0]), events[1..]));
    }
  }

  ghost predicate StartsEffect(g: Gate, c: nat) {
    c < |g.calls| && g.calls[c].stage.Starting? && g.world.rt.LeaseValid(g.calls[c].stage.lease)
  }

  /** Effects are exactly what valid starts append: no other event adds one. */
  lemma {:induction false} EffectsComeFromStarts(g: Gate, e: Event)
    ensures Step(g, e).effects
         == if e.Move? && StartsEffect(g, e.c)
            then g.effects + [Effect(e.c, g.calls[e.c].action, g.calls[e.c].stage.lease)] else g.effects
  {}

  /** No side effect past a fence. Whatever the interleaving, from any moment at which the lease's
      proof had already been drawn (so, from its issue) to the start of the effect, the runtime made
      no transition, not even one undone since. */
  lemma {:induction false} NoEffectPastFence(g: Gate, events: seq<Event>, c: nat)
    requires g.world.Valid() && StartsEffect(Run(g, events), c)
    requires var lease := Run(g, events).calls[c].stage.lease;
             lease.proof.Some? && lease.proof.value < g.world.next
    ensures Undisturbed(g, events)
  {
    RunWorld(g, events);
    ProofOfRun(g.world, RunOps(g, events));
  }

  /** The converse: a lease that was valid stays valid as long as nothing disturbs the runtime. */
  lemma {:induction false} UndisturbedLeaseStands(g: Gate, events: seq<Event>, lease: Lease)
    requires g.world.Valid() && g.world.rt.LeaseValid(lease)
    ensures Run(g, events).world.rt.LeaseValid(lease) <==> Undisturbed(g, events)
  {
    RunWorld(g, events);
    ProofOfRun(g.world, RunOps(g, events));
  }

  // ----- the story of one call -----

  function Held(stage: Stage): Option<Lease> {
    match stage
    case Gating(held) => held
    case Judging(held) => held
    case Starting(lease) => Some(lease)
    case _ => None
  }

  /** At the `i`-th event the call took its lease, or had the one presented validated. */
  ghost predicate Leased(g: Gate, events: seq<Event>, c: nat, lease: Lease, i: nat) {
    && i < |events| && events[i] == Move(c)
    && var at := Run(g, events[..i]);
       && c < |at.calls| && at.calls[c].stage == Entered
       && at.calls[c].action.agentId == at.world.rt.agentId
       && at.world.rt.LeaseValid(lease)
       && (at.calls[c].kind.Plain? ==> at.world.rt.AcquireLease() == Some(lease))
       && (!at.calls[c].kind.Plain? ==> at.calls[c].kind.lease == lease)
  }

  /** At the `k`-th event the policy answered ALLOW to the call's own action. */
  ghost predicate Allowed(g: Gate, events: seq<Event>, c: nat, k: nat) {
    && k < |events| && events[k] == Move(c)
    && var at := Run(g, events[..k]);
       && c < |at.calls| && at.calls[c].stage.Judging?
       && Judge(at.config, at.trace, at.calls[c].action).decision == Allow
  }

  lemma LeasedEarlier(g: Gate, events: seq<Event>, e: Event, c: nat, lease: Lease, i: nat)
    requires i < |events|
    ensures Leased(g, events, c, lease, i) <==> Leased(g, events + [e], c, lease, i)
    ensures Allowed(g, events, c, i) <==> Allowed(g, events + [e], c, i)
  {
    assert (events + [e])[..i] == events[..i];
  }

  /** What one event can do to a call. */
  lemma CallStep(g: Gate, e: Event, c: nat)
    ensures var t := Step(g, e);
            && |g.calls| <= |t.calls| <= |g.calls| + 1
            && (c < |g.calls| ==>
                  && t.calls[c].action == g.calls[c].action && t.calls[c].kind == g.calls[c].kind
                  && (e != Move(c) ==> t.calls[c] == g.calls[c]))
            && (|g.calls| <= c < |t.calls| ==> t.calls[c].stage == Entered)
  {}

  /** A call that holds a lease took it, or had it validated, after it arrived. */
  lemma {:induction false} LeaseHasOrigin(g: Gate, events: seq<Event>, c: nat) returns (i: nat)
    requires c >= |g.calls| && c < |Run(g, events).calls| && Held(Run(g, events).calls[c].stage).Some?
    ensures Leased(g, events, c, Held(Run(g, events).calls[c].stage).value, i)
    decreases |events|
  {
    var n := |events| - 1;
    var front, e := events[..n], events[n];
    assert events == front + [e];
    RunLast(g, front, e);
    var p := Run(g, front);
    var lease := Held(Run(g, events).calls[c].stage).value;
    CallStep(p, e, c);
    if p.calls[c].stage == Entered {
      i := n;
    } else {
      i := LeaseHasOrigin(g, front, c);
      LeasedEarlier(g, front, e, c, lease, i);
    }
  }

  /** A call about to start its effect was allowed by the policy, after its lease was taken. */
  lemma {:induction false} StartWasAllowed(g: Gate, events: seq<Event>, c: nat) returns (i: nat, k: nat)
    requires c >= |g.calls| && c < |Run(g, events).calls| && Run(g, events).calls[c].stage.Starting?
    ensures i < k && Leased(g, events, c, Run(g, events).calls[c].stage.lease, i) && Allowed(g, events, c, k)
    decreases |events|
  {
    var n := |events| - 1;
    var front, e := events[..n], events[n];
    assert events == front + [e];
    RunLast(g, front, e);
    var p := Run(g, front);
    var lease := Run(g, events).calls[c].stage.lease;
    CallStep(p, e, c);
    if p.calls[c].stage.Judging? {
      k := n;
      i := LeaseHasOrigin(g, front, c);
      LeasedEarlier(g, front, e, c, lease, i);
    } else {
      i, k := StartWasAllowed(g, front, c);
      LeasedEarlier(g, front, e, c, lease, i);
      LeasedEarlier(g, front, e, c, lease, k);
    }
  }

  /** In every interleaving, every started effect belongs to a call for the runtime's own agent that
      took or presented a lease valid at its event `i`, was answered ALLOW by the policy at its later
      event `k`, and the runtime made no transition from `i` to the effect. */
  lemma {:induction false} EffectStory(g: Gate, events: seq<Event>, c: nat) returns (i: nat, k: nat)
    requires g.world.Valid() && c >= |g.calls| && StartsEffect(Run(g, events), c)
    ensures i < k
    ensures Leased(g, events, c, Run(g, events).calls[c].stage.lease, i)
    ensures Allowed(g, events, c, k)
    ensures Run(g, events).calls[c].action.agentId == g.world.rt.agentId
    ensures Undisturbed(Run(g, events[..i]), events[i..])
  {
    i, k := StartWasAllowed(g, events, c);
    var at := Run(g, events[..i]);
    RunWorld(g, events[..i]);
    ProofOfRun(g.world, RunOps(g, events[..i]));
    RunSplit(g, events, i);
    CallKept(at, events[i..], c);
    NoEffectPastFence(at, events[i..], c);
  }

  lemma {:induction false} CallKept(g: Gate, events: seq<Event>, c: nat)
    requires c < |g.calls|
    ensures c < |Run(g, events).calls|
    ensures Run(g, events).calls[c].action == g.calls[c].action && Run(g, events).calls[c].kind == g.calls[c].kind
    decreases events
  {
    if events != [] {
      CallStep(g, events[0], c);
      CallKept(Step(g, events[0]), events[1..], c);
    }
  }

  /** Event `j` started the effect `x`: the call behind it had its lease at event `i`, was answered ALLOW
      at the later event `k`, and the runtime made no transition from `i` to `j`. */
  ghost predicate Explained(g: Gate, events: seq<Event>, x: Effect, i: nat, k: nat, j: nat) {
    && i < k < j < |events| && events[j] == Move(x.call)
    && Leased(g, events, x.call, x.lease, i)
    && Allowed(g, events, x.call, k)
    && (var at := Run(g, events[..j]);
        StartsEffect(at, x.call) && x == Effect(x.call, at.calls[x.call].action, at.calls[x.call].stage.lease))
    && x.action.agentId == g.world.rt.agentId
    && Undisturbed(Run(g, events[..i]), events[i..j])
  }

  lemma ExplainedEarlier(g: Gate, events: seq<Event>, e: Event, x: Effect, i: nat, k: nat, j: nat)
    requires Explained(g, events, x, i, k, j)
    ensures Explained(g, events + [e], x, i, k, j)
  {
    LeasedEarlier(g, events, e, x.call, x.lease, i);
    LeasedEarlier(g, events, e, x.call, x.lease, k);
    assert (events + [e])[..j] == events[..j] && (events + [e])[..i] == events[..i]
      && (events + [e])[i..j] == events[i..j];
  }

  /** Every effect on record, in every interleaving, has that story. */
  lemma {:induction false} EveryEffectExplained(g: Gate, events: seq<Event>, n: nat) returns (i: nat, k: nat, j: nat)
    requires g.world.Valid() && g.calls == [] && |g.effects| <= n < |Run(g, events).effects|
    ensures Explained(g, events, Run(g, events).effects[n], i, k, j)
    decreases |events|
  {
    var m := |events| - 1;
    var front, e := events[..m], events[m];
    assert events == front + [e];
    RunLast(g, front, e);
    var p := Run(g, front);
    EffectsComeFromStarts(p, e);
    if n < |p.effects| {
      i, k, j := EveryEffectExplained(g, front, n);
      ExplainedEarlier(g, front, e, p.effects[n], i, k, j);
    } else {
      var c := e.c;
      i, k := EffectStory(g, front, c);
      j := m;
      LeasedEarlier(g, front, e, c, p.calls[c].stage.lease, i);
      LeasedEarlier(g, front, e, c, p.calls[c].stage.lease, k);
      assert events[..i] == front[..i] && events[i..j] == front[i..] && events[..j] == front;
    }
  }

  // ----- a call nobody interferes with -----

  /** The call arrives and takes all its steps. */
  function Alone(action: Action, kind: Kind, c: nat): seq<Event> {
    [Arrive(action, kind)] + [Move(c)] + [Move(c)] + [Move(c)] + [Move(c)]
  }

  /** The gate with one more call, which has got to `stage`. */
  function Lone(g: Gate, action: Action, kind: Kind, stage: Stage): Gate {
    g.(calls := g.calls + [Call(action, kind, stage)])
  }

  lemma LoneStage(g: Gate, action: Action, kind: Kind, stage: Stage, next: Stage)
    ensures SetStage(Lone(g, action, kind, stage), |g.calls|, next) == Lone(g, action, kind, next)
  {}

  // Its steps, one at a time.

  lemma EntersAlone(g: Gate, action: Action, kind: Kind)
    ensures var rt := g.world.rt; var lease := Lease(rt.agentId, rt.epoch, Some(rt.proof));
            Take(Lone(g, action, kind, Entered), |g.calls|)
            == Lone(g, action, kind,
                    if action.agentId != rt.agentId then Finished
                    else if kind.Plain? then Gating(if rt.state == Active then Some(lease) else None)
                    else if kind.lease == lease && rt.state == Active then Gating(Some(lease))
                    else Finished)
  {
    LoneStage(g, action, kind, Entered, Finished);
    LoneStage(g, action, kind, Entered, Gating(g.world.rt.AcquireLease()));
    if !kind.Plain? {
      LoneStage(g, action, kind, Entered, Gating(Some(kind.lease)));
    }
  }

  lemma GatesAlone(g: Gate, action: Action, kind: Kind, held: Option<Lease>)
    ensures Take(Lone(g, action, kind, Gating(held)), |g.calls|)
         == Lone(g, action, kind, if g.world.rt.state == Active then Judging(held) else Finished)
  {
    LoneStage(g, action, kind, Gating(held), Finished);
    LoneStage(g, action, kind, Gating(held), Judging(held));
  }

  lemma JudgesAlone(g: Gate, action: Action, kind: Kind, lease: Lease)
    ensures var verdict := Judge(g.config, g.trace, action);
            Take(Lone(g, action, kind, Judging(Some(lease))), |g.calls|)
            == Lone(g.(trace := verdict.trace), action, kind,
                    if verdict.decision == Allow then Starting(lease)
                    else if verdict.decision == Halt then Halting else Finished)
  {
    LoneStage(g.(trace := Judge(g.config, g.trace, action).trace), action, kind, Judging(Some(lease)), Starting(lease));
    LoneStage(g.(trace := Judge(g.config, g.trace, action).trace), action, kind, Judging(Some(lease)), Halting);
    LoneStage(g.(trace := Judge(g.config, g.trace, action).trace), action, kind, Judging(Some(lease)), Finished);
  }

  lemma StartsAlone(g: Gate, action: Action, kind: Kind, lease: Lease)
    requires lease == Lease(g.world.rt.agentId, g.world.rt.epoch, Some(g.world.rt.proof)) && g.world.rt.state == Active
    ensures Take(Lone(g, action, kind, Starting(lease)), |g.calls|)
         == Lone(g.(effects := g.effects + [Effect(|g.calls|, action, lease)]), action, kind, Finished)
  {
    LoneStage(g.(effects := g.effects + [Effect(|g.calls|, action, lease)]), action, kind, Starting(lease), Finished);
  }

  lemma HaltsAlone(g: Gate, action: Action, kind: Kind)
    ensures var rt := g.world.rt;
            var w := World(rt.(state := Halted, epoch := rt.epoch + 1, proof := g.world.next), g.world.next + 1);
            Take(Lone(g, action, kind, Halting), |g.calls|) == Lone(g.(world := w), action, kind, Finished)
  {
    LoneStage(g.(world := Apply(g.world, OpHalt)), action, kind, Halting, Finished);
  }

  lemma {:induction false} RunAlone(g: Gate, action: Action, kind: Kind)
    ensures var c := |g.calls|;
            Run(g, Alone(action, kind, c)) == Take(Take(Take(Take(Lone(g, action, kind, Entered), c), c), c), c)
  {
    var c := |g.calls|;
    var first := [Arrive(action, kind)];
    RunLast(g, [], first[0]);
    assert [] + [first[0]] == first;
    RunMoves(g, first, c);
    RunMoves(g, first + [Move(c)], c);
    RunMoves(g, first + [Move(c)] + [Move(c)], c);
    RunMoves(g, first + [Move(c)] + [Move(c)] + [Move(c)], c);
  }

  lemma {:induction false} RunMoves(g: Gate, events: seq<Event>, c: nat)
    requires c < |Run(g, events).calls|
    ensures Run(g, events + [Move(c)]) == Take(Run(g, events), c)
    ensures c < |Run(g, events + [Move(c)]).calls|
  {
    RunLast(g, events, Move(c));
    CallStep(Run(g, events), Move(c), c);
  }

  /** The call gets all the way: the policy is asked exactly for the runtime's own agent, under a lease that
      is taken or valid, while the runtime is executable; an ALLOW starts the effect, a HALT halts the
      runtime, and the policy's trace is what it leaves. */
  lemma {:induction false} AloneCompletes(g: Gate, action: Action, kind: Kind)
    ensures var t := Run(g, Alone(action, kind, |g.calls|)); var rt := g.world.rt;
            var lease := Lease(rt.agentId, rt.epoch, Some(rt.proof));
            var asked := action.agentId == rt.agentId && rt.state == Active && (!kind.Plain? ==> kind.lease == lease);
            var verdict := Judge(g.config, g.trace, action);
            && t.calls == g.calls + [Call(action, kind, Finished)]
            && t.trace == (if asked then verdict.trace else g.trace)
            && t.effects
               == g.effects + (if asked && verdict.decision == Allow then [Effect(|g.calls|, action, lease)] else [])
            && t.world
               == if asked && verdict.decision == Halt
                  then World(rt.(state := Halted, epoch := rt.epoch + 1, proof := g.world.next), g.world.next + 1)
                  else g.world
  {
    var rt := g.world.rt;
    var lease := Lease(rt.agentId, rt.epoch, Some(rt.proof));
    RunAlone(g, action, kind);
    EntersAlone(g, action, kind);
    if action.agentId == rt.agentId && (kind.Plain? || (kind.lease == lease && rt.state == Active)) {
      GatesAlone(g, action, kind, if rt.state == Active then Some(lease) else None);
      if rt.state == Active {
        JudgesAlone(g, action, kind, lease);
        AnsweredAlone(g.(trace := Judge(g.config, g.trace, action).trace), action, kind, lease);
      }
    }
  }

  /** Whatever the policy has answered. */
  lemma AnsweredAlone(g: Gate, action: Action, kind: Kind, lease: Lease)
    requires lease == Lease(g.world.rt.agentId, g.world.rt.epoch, Some(g.world.rt.proof)) && g.world.rt.state == Active
    ensures Take(Lone(g, action, kind, Starting(lease)), |g.calls|)
         == Lone(g.(effects := g.effects + [Effect(|g.calls|, action, lease)]), action, kind, Finished)
    ensures var rt := g.world.rt;
            var w := World(rt.(state := Halted, epoch := rt.epoch + 1, proof := g.world.next), g.world.next + 1);
            Take(Lone(g, action, kind, Halting), |g.calls|) == Lone(g.(world := w), action, kind, Finished)
  {
    StartsAlone(g, action, kind, lease);
    HaltsAlone(g, action, kind);
  }

  // ----- the gateway object -----

  /** What a caller gets back: the executor's result, or a decision. */
  datatype Answer = Ran | Refused(decision: Decision)

  datatype Started = Started(action: Action, lease: Lease)

  /** The decision on an action that reaches the policy check after the race `r1`. */
  function Reply(w: World, r1: seq<Op>, judged: DecisionType): DecisionType {
    if ApplyAll(w, r1).rt.CanExecute() then judged else Deny
  }

  /** The runtime once such a call is over: a HALT halts it, and only an allowed call with a lease
      waits for the last race. */
  function Aftermath(w: World, reply: DecisionType, leased: bool, r1: seq<Op>, r2: seq<Op>, r3: seq<Op>): World {
    if reply == Halt then Apply(ApplyAll(w, r1 + r2), OpHalt)
    else if reply == Allow && leased then ApplyAll(w, r1 + r2 + r3)
    else ApplyAll(w, r1 + r2)
  }

  class ActionGateway {
    const policy: PolicyEngine
    const runtime: Runtime
    const historyLimit: Option<nat>
    var history: seq<Decision>
    /** Every effect started so far. */
    var started: seq<Started>

    ghost predicate Valid()
      reads this, policy, runtime, runtime.ids
    {
      policy.Valid() && runtime.Valid() && historyLimit != Some(0)
    }

    /** The trail with one more decision, cut to its limit. */
    function Recorded(trail: seq<Decision>, decision: Decision): (r: seq<Decision>)
      ensures |r| == if historyLimit.None? || |trail| < historyLimit.value then |trail| + 1 else historyLimit.value
      // The newest decision last, and before it the newest of the trail.
      ensures forall i :: 0 <= i < |r| ==> r[i] == (trail + [decision])[|trail| + 1 - |r| + i]
    {
      if historyLimit.Some? then Recent(trail + [decision], historyLimit.value) else trail + [decision]
    }

    constructor (policy: PolicyEngine, runtime: Runtime, historyLimit: Option<nat>)
      requires policy.Valid() && runtime.Valid() && historyLimit != Some(0)
      ensures this.policy == policy && this.runtime == runtime && Valid()
      ensures history == [] && started == []
    {
      this.policy := policy;
      this.runtime := runtime;
      this.historyLimit := historyLimit;
      history := [];
      started := [];
    }

    /** What the policy would answer to the action now. */
    ghost function Judged(action: Action): Verdict
      reads policy
    {
      Judge(policy.config, policy.trace, action)
    }

    method Record(decision: Decision)
      modifies `history
      ensures history == Recorded(old(history), decision)
    {
      history := history + [decision];
      if historyLimit.Some? {
        history := Recent(history, historyLimit.value);
      }
    }

    /** `race`: what other threads do between the check of the runtime and the policy's answer. */
    method Authorize(action: Action, race: seq<Op>) returns (d: Decision)
      requires Valid()
      modifies `history, policy, runtime, runtime.ids
      ensures Valid() && d.actionId == action.actionId
      ensures var asked := action.agentId == runtime.agentId && old(runtime.View()).CanExecute();
              Verdict(d.decision, policy.trace) == if asked then old(Judged(action))
                else Verdict(Deny, old(policy.trace))
      ensures var w := ApplyAll(old(runtime.Abs()), race);
              runtime.Abs() == if d.decision == Halt then Apply(w, OpHalt) else w
      ensures history == Recorded(old(history), d)
      ensures action.agentId != runtime.agentId ==> d.reason == OtherAgent
      ensures action.agentId == runtime.agentId && old(runtime.state) != Active ==> d.reason == NotExecutable
    {
      var executable := runtime.state == Active;
      runtime.PerformAll(race);
      if action.agentId != runtime.agentId {
        d := Decision(action.actionId, Deny, OtherAgent);
      } else if !executable {
        d := Decision(action.actionId, Deny, NotExecutable);
      } else {
        d := policy.Evaluate(action);
      }
      Record(d);
      if d.decision == Halt {
        runtime.Halt();
      }
    }

    /** `execute_if_active` under the runtime's lock. */
    method StartIfActive(action: Action, lease: Lease) returns (ran: bool)
      modifies `started
      ensures ran <==> runtime.View().LeaseValid(lease)
      ensures started == if ran then old(started) + [Started(action, lease)] else old(started)
    {
      ran := runtime.LeaseValid(lease);
      if ran {
        started := started + [Started(action, lease)];
      }
    }

    /** From a valid lease to the effect. The effect starts exactly when the policy allows the action
        and no thread makes the runtime change anywhere in between. */
    method Proceed(action: Action, lease: Lease, r1: seq<Op>, r2: seq<Op>, r3: seq<Op>)
      returns (answer: Answer, late: bool, ghost judged: Decision)
      requires Valid() && action.agentId == runtime.agentId && runtime.View().LeaseValid(lease)
      modifies `history, `started, policy, runtime, runtime.ids
      ensures Valid()
      ensures answer.Ran? <==> old(Judged(action)).decision == Allow && !Transitioned(old(runtime.Abs()), r1 + r2 + r3)
      ensures started == if answer.Ran? then old(started) + [Started(action, lease)] else old(started)
      ensures var reply := Reply(old(runtime.Abs()), r1, old(Judged(action)).decision);
              && runtime.Abs() == Aftermath(old(runtime.Abs()), reply, true, r1, r2, r3)
              && (late <==> reply == Allow && answer.Refused?)
      ensures policy.trace == if ApplyAll(old(runtime.Abs()), r1).rt.CanExecute() then old(Judged(action)).trace
              else old(policy.trace)
      ensures late ==> answer.decision == Decision(action.actionId, Deny, LeaseInvalidatedBeforeEffect)
      ensures history == Recorded(old(history), judged) && judged.actionId == action.actionId
      ensures judged.decision == Reply(old(runtime.Abs()), r1, old(Judged(action)).decision)
      ensures answer.Refused? && !late ==> answer.decision == judged
    {
      RacesDecide(runtime.Abs(), lease, r1, r2, r3);
      runtime.PerformAll(r1);
      var decision := Authorize(action, r2);
      if decision.decision != Allow {
        return Refused(decision), false, decision;
      }
      runtime.PerformAll(r3);
      var ran := StartIfActive(action, lease);
      if !ran {
        return Refused(Decision(action.actionId, Deny, LeaseInvalidatedBeforeEffect)), true, decision;
      }
      return Ran, false, decision;
    }

    method Execute(action: Action, r1: seq<Op>, r2: seq<Op>, r3: seq<Op>)
      returns (answer: Answer, ghost judged: Decision)
      requires Valid()
      modifies `history, `started, policy, runtime, runtime.ids
      ensures Valid()
      ensures answer.Ran? <==>
                && action.agentId == runtime.agentId && old(runtime.View()).CanExecute()
                && old(Judged(action)).decision == Allow && !Transitioned(old(runtime.Abs()), r1 + r2 + r3)
      ensures started == if answer.Ran? then old(started) + [Started(action, old(runtime.View()).AcquireLease().value)]
                         else old(started)
      ensures var w := old(runtime.Abs()); var reply := Reply(w, r1, old(Judged(action)).decision);
              runtime.Abs() == if action.agentId == runtime.agentId
                then Aftermath(w, reply, w.rt.CanExecute(), r1, r2, r3) else w
      ensures policy.trace == if action.agentId == runtime.agentId && ApplyAll(old(runtime.Abs()), r1).rt.CanExecute()
                              then old(Judged(action)).trace else old(policy.trace)
      // One decision on record for the call, and a second one if its lease did not last.
      ensures judged.actionId == action.actionId
      ensures history == if answer.Refused? && old(runtime.state) == Active && judged.decision == Allow
                         then Recorded(Recorded(old(history), judged), answer.decision)
                           else Recorded(old(history), judged)
      ensures answer.Refused? ==>
                answer.decision
                == if old(runtime.state) == Active && judged.decision == Allow
                   then Decision(action.actionId, Deny, LeaseInvalidatedBeforeEffect) else judged
      ensures action.agentId == runtime.agentId ==>
                judged.decision == Reply(old(runtime.Abs()), r1, old(Judged(action)).decision)
      ensures action.agentId != runtime.agentId ==>
                answer == Refused(Decision(action.actionId, Deny, OtherAgent)) && judged == answer.decision
    {
      if action.agentId != runtime.agentId {
        var decision := Decision(action.actionId, Deny, OtherAgent);
        Record(decision);
        return Refused(decision), decision;
      }
      var lease := runtime.AcquireLease();
      if lease.None? {
        ApplyAllAppend(runtime.Abs(), r1, r2);
        runtime.PerformAll(r1);
        var decision := Authorize(action, r2);
        return Refused(decision), decision;
      }
      var late;
      answer, late, judged := Proceed(action, lease.value, r1, r2, r3);
      if late {
        Record(answer.decision);
      }
    }

    method ExecuteWithLease(action: Action, lease: Lease, r1: seq<Op>, r2: seq<Op>, r3: seq<Op>)
      returns (answer: Answer, ghost judged: Decision)
      requires Valid()
      modifies `history, `started, policy, runtime, runtime.ids
      ensures Valid()
      ensures answer.Ran? <==>
                && action.agentId == runtime.agentId && old(runtime.View()).LeaseValid(lease)
                && old(Judged(action)).decision == Allow && !Transitioned(old(runtime.Abs()), r1 + r2 + r3)
      ensures started == if answer.Ran? then old(started) + [Started(action, lease)] else old(started)
      ensures var w := old(runtime.Abs()); var reply := Reply(w, r1, old(Judged(action)).decision);
              runtime.Abs() == if action.agentId == runtime.agentId && w.rt.LeaseValid(lease)
                               then Aftermath(w, reply, true, r1, r2, r3) else w
      ensures policy.trace == if action.agentId == runtime.agentId && old(runtime.View()).LeaseValid(lease)
                                 && ApplyAll(old(runtime.Abs()), r1).rt.CanExecute()
                              then old(Judged(action)).trace else old(policy.trace)
      ensures judged.actionId == action.actionId
      ensures history == if answer.Refused? && old(runtime.View()).LeaseValid(lease) && judged.decision == Allow
                         then Recorded(Recorded(old(history), judged), answer.decision)
                           else Recorded(old(history), judged)
      ensures answer.Refused? ==>
                answer.decision
                == if old(runtime.View()).LeaseValid(lease) && judged.decision == Allow
                   then Decision(action.actionId, Deny, LeaseInvalidatedBeforeEffect) else judged
      ensures action.agentId == runtime.agentId && old(runtime.View()).LeaseValid(lease) ==>
                judged.decision == Reply(old(runtime.Abs()), r1, old(Judged(action)).decision)
      ensures action.agentId != runtime.agentId ==>
                answer == Refused(Decision(action.actionId, Deny, OtherAgent)) && judged == answer.decision
      ensures action.agentId == runtime.agentId && !old(runtime.View()).LeaseValid(lease) ==>
                answer == Refused(Decision(action.actionId, Deny, LeaseInvalid)) && judged == answer.decision
    {
      if action.agentId != runtime.agentId {
        var decision := Decision(action.actionId, Deny, OtherAgent);
        Record(decision);
        return Refused(decision), decision;
      }
      var valid := runtime.LeaseValid(lease);
      if !valid {
        var decision := Decision(action.actionId, Deny, LeaseInvalid);
        Record(decision);
        return Refused(decision), decision;
      }
      var late;
      answer, late, judged := Proceed(action, lease, r1, r2, r3);
      if late {
        Record(answer.decision);
      }
    }

    /** The egress path: the same, but its own refusals are not recorded. */
    method ExecuteEgress(action: Action, lease: Lease, r1: seq<Op>, r2: seq<Op>, r3: seq<Op>)
      returns (answer: Answer, ghost judged: Decision)
      requires Valid()
      modifies `history, `started, policy, runtime, runtime.ids
      ensures Valid()
      ensures answer.Ran? <==>
                && action.agentId == runtime.agentId && old(runtime.View()).LeaseValid(lease)
                && old(Judged(action)).decision == Allow && !Transitioned(old(runtime.Abs()), r1 + r2 + r3)
      ensures started == if answer.Ran? then old(started) + [Started(action, lease)] else old(started)
      ensures var w := old(runtime.Abs()); var reply := Reply(w, r1, old(Judged(action)).decision);
              runtime.Abs() == if action.agentId == runtime.agentId && w.rt.LeaseValid(lease)
                               then Aftermath(w, reply, true, r1, r2, r3) else w
      ensures policy.trace == if action.agentId == runtime.agentId && old(runtime.View()).LeaseValid(lease)
                                 && ApplyAll(old(runtime.Abs()), r1).rt.CanExecute()
                              then old(Judged(action)).trace else old(policy.trace)
      // Only what the policy was asked goes on record.
      ensures var asked := action.agentId == runtime.agentId && old(runtime.View()).LeaseValid(lease);
              && history == (if asked then Recorded(old(history), judged) else old(history))
              && judged.actionId == action.actionId
              && (answer.Refused? ==>
                  answer.decision == if asked && judged.decision == Allow
                                     then Decision(action.actionId, Deny, LeaseInvalidatedBeforeEffect) else judged)
              && (asked ==> judged.decision == Reply(old(runtime.Abs()), r1, old(Judged(action)).decision))
              && (!asked ==> answer == Refused(judged) && judged.decision == Deny)
    {
      if action.agentId != runtime.agentId {
        return Refused(Decision(action.actionId, Deny, OtherAgent)), Decision(action.actionId, Deny, OtherAgent);
      }
      var valid := runtime.LeaseValid(lease);
      if !valid {
        return Refused(Decision(action.actionId, Deny, LeaseInvalid)), Decision(action.actionId, Deny, LeaseInvalid);
      }
      var late;
      answer, late, judged := Proceed(action, lease, r1, r2, r3);
    }
  }

  /** A lease valid before the first part of a race is still valid after it only if that part
      disturbed nothing, and then the rest decides. */
  lemma {:induction false} StoppedByRace(w: World, lease: Lease, first: seq<Op>, rest: seq<Op>)
    requires w.Valid() && w.rt.LeaseValid(lease)
    ensures ApplyAll(w, first).rt.LeaseValid(lease) <==> !Transitioned(w, first)
    ensures Transitioned(w, first) ==> Transitioned(w, first + rest)
    ensures !Transitioned(w, first) ==> ApplyAll(w, first).rt.CanExecute()
  {
    ProofOfRun(w, first);
    TransitionedAppend(w, first, rest);
  }

  /** Three races in a row: the lease is still valid after them only if nothing was disturbed, and a
      runtime stopped by the first has been. */
  lemma {:induction false} RacesDecide(w: World, lease: Lease, r1: seq<Op>, r2: seq<Op>, r3: seq<Op>)
    requires w.Valid() && w.rt.LeaseValid(lease)
    ensures ApplyAll(ApplyAll(w, r1), r2) == ApplyAll(w, r1 + r2)
    ensures ApplyAll(ApplyAll(w, r1 + r2), r3) == ApplyAll(w, r1 + r2 + r3)
    ensures ApplyAll(w, r1 + r2 + r3).rt.LeaseValid(lease) <==> !Transitioned(w, r1 + r2 + r3)
    ensures !ApplyAll(w, r1).rt.CanExecute() ==> Transitioned(w, r1 + r2 + r3)
  {
    ApplyAllAppend(w, r1, r2);
    ApplyAllAppend(w, r1 + r2, r3);
    StoppedByRace(w, lease, r1 + r2 + r3, []);
    StoppedByRace(w, lease, r1, r2 + r3);
    assert r1 + (r2 + r3) == r1 + r2 + r3;
  }
}
