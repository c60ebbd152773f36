/** The service driven by any sequence of requests, for any agents, with interfering threads, failing
    devices and providers, and restarts: every agent it serves has a history of the protocol.
    Source: src/agent_containment/control.py. */
module ServiceHistory {
  import opened Wrappers
  import opened RuntimeModel
  import opened IncidentRegistry
  import opened FenceRegistry
  import opened Enforcement
  import opened ServiceView
  import opened Service
  import opened AgentHistory
  import P = Protocol
  import ProtocolSafety
  import ContainDiscipline
  import RecoverRuns
  import RegisterRuns
  import Policy

  ghost function Everything(service: ContainmentService): set<object>
    reads service, service.agents.Values
  {
    {service, service.incidents, service.fences, service.ids} + service.Objects()
    + (set m | m in service.agents.Values :: m.containment as object)
  }

  /** A call that ran the protocol for the agent it is about, as any agent sees it. */
  twostate lemma Turned(service: ContainmentService, new a: string, new q: Request, new acts: seq<P.Action>,
                        new answer: Answer, new out: P.Outcome)
    returns (turn: Turn, t: P.Sys)
    requires !q.Restart? && service.OthersUntouched(q.agent)
    requires service.Abs(q.agent, out) == P.Run(old(service.Abs(q.agent, P.Nothing)), acts)
    ensures turn == Turn(q, if a == q.agent then acts else [P.DrawElsewhere(service.ids.next - old(service.ids.next))],
                         answer)
    ensures t == service.Abs(a, P.Nothing) && Follows(old(service.Abs(a, P.Nothing)), turn.acts, t)
  {
    var s := old(service.Abs(a, P.Nothing));
    t := service.Abs(a, P.Nothing);
    if a != q.agent {
      var drawn := P.DrawElsewhere(service.ids.next - old(service.ids.next));
      turn := Turn(q, [drawn], answer);
      P.RunOne(s, drawn);
      assert t == s.(next := service.ids.next);
    } else {
      turn := Turn(q, acts, answer);
    }
  }

  /** The table is as it was, without the agent's entry, or with a new one over new objects. */
  twostate predicate Tabled(service: ContainmentService, new a: string)
    reads service
  {
    || service.agents == old(service.agents)
    || service.agents == old(service.agents) - {a}
    || (a in service.agents && service.agents == old(service.agents)[a := service.agents[a]]
        && fresh(service.agents[a]) && fresh(service.agents[a].runtime) && fresh(service.agents[a].containment))
  }

  twostate lemma OnlyNewObjects(service: ContainmentService, new a: string)
    requires Tabled(service, a)
    ensures fresh(Everything(service) - old(Everything(service)))
  {}

  // ----- one kind of request each -----

  method Contains(service: ContainmentService, q: Request)
    returns (answer: Answer, ghost acts: seq<P.Action>, ghost out: P.Outcome)
    requires service.Valid() && q.Valid() && q.Containment?
    modifies Everything(service)
    ensures service.Valid() && service.OthersUntouched(q.agent) && Tabled(service, q.agent)
    ensures Explains(Turn(q, acts, answer), old(service.Abs(q.agent, P.Nothing)))
    ensures service.Abs(q.agent, out) == P.Run(old(service.Abs(q.agent, P.Nothing)), acts)
  {
    var r := service.Contain(q.agent, NextReading(service.incidents.records), q.hooks, q.fenced, q.r1, q.r2, q.recorded,
                             q.audited, q.degraded);
    answer := if r.Ok? then Accepted else Refused;
    acts, out := [], P.Nothing;
    if q.agent in service.agents {
      acts := ContainDiscipline.ContainActs(q.fenced, q.r1, q.r2, q.recorded, q.audited, q.degraded);
      out := if r.Ok? then P.ContainReturned else P.ContainRaised;
    }
  }

  method Recovers(service: ContainmentService, q: Request)
    returns (answer: Answer, ghost acts: seq<P.Action>, ghost out: P.Outcome)
    requires service.Valid() && q.Valid() && q.Recovery?
    modifies Everything(service)
    ensures service.Valid() && service.OthersUntouched(q.agent) && Tabled(service, q.agent)
    ensures Explains(Turn(q, acts, answer), old(service.Abs(q.agent, P.Nothing)))
    ensures service.Abs(q.agent, out) == P.Run(old(service.Abs(q.agent, P.Nothing)), acts)
  {
    ghost var s := service.Abs(q.agent, P.Nothing);
    var r;
    ghost var f;
    r, f, out := service.Recover(q.agent, q.auth, q.w);
    answer := if r.Ok? then Accepted else Refused;
    acts := if s.live.Up? then RecoverRuns.RecoverActs(s, q.auth, f) else [];
    out := if s.live.Up? then out else P.Nothing;
  }

  method Enters(service: ContainmentService, a: string, containment: ContainmentController?,
                policy: Policy.PolicyEngine, starts: bool, admits: bool, settles: bool)
    returns (ok: bool, ghost out: P.Outcome)
    requires service.Valid()
    requires containment != null ==> containment.runtime.ids == service.ids && containment.runtime.Valid()
    modifies service, service.incidents, service.fences, service.ids, if containment != null then {containment.runtime}
      else {}
    ensures service.Valid() && service.OthersUntouched(a)
    ensures ok <==> out == P.RegisterReturned
    ensures !ok ==> service.agents == old(service.agents)
    ensures ok ==>
              && a in service.agents && service.agents == old(service.agents)[a := service.agents[a]]
              && fresh(service.agents[a])
              && (containment == null ==> fresh(service.agents[a].runtime) && fresh(service.agents[a].containment))
              && (containment != null ==>
                    && service.agents[a].runtime == containment.runtime
                    && service.agents[a].containment == containment)
    ensures service.Abs(a, out)
         == P.Run(old(service.Abs(a, P.Nothing)),
                  old(RegisterRuns.RegisterActs(service.Supplied(containment), starts, admits, settles)))
  {
    var r := service.Register(a, containment, policy, NextReading(service.incidents.records), starts, admits, settles);
    ok, out := r.Ok?, if r.Ok? then P.RegisterReturned else P.RegisterRaised;
  }

  method Registers(service: ContainmentService, q: Request, policy: Policy.PolicyEngine)
    returns (answer: Answer, ghost acts: seq<P.Action>, ghost out: P.Outcome)
    requires service.Valid() && q.Registration?
    modifies Everything(service)
    ensures service.Valid() && service.OthersUntouched(q.agent) && Tabled(service, q.agent)
    ensures Explains(Turn(q, acts, answer), old(service.Abs(q.agent, P.Nothing)))
    ensures service.Abs(q.agent, out) == P.Run(old(service.Abs(q.agent, P.Nothing)), acts)
  {
    var ok;
    ok, out := Enters(service, q.agent, null, policy, q.starts, q.admits, q.settles);
    answer, acts := if ok then Accepted else Refused, RegisterRuns.RegisterActs(None, q.starts, q.admits, q.settles);
  }

  method Deregisters(service: ContainmentService, q: Request)
    returns (answer: Answer, ghost acts: seq<P.Action>, ghost out: P.Outcome)
    requires service.Valid() && q.Deregistration?
    modifies Everything(service)
    ensures service.Valid() && service.OthersUntouched(q.agent) && Tabled(service, q.agent)
    ensures Explains(Turn(q, acts, answer), old(service.Abs(q.agent, P.Nothing)))
    ensures service.Abs(q.agent, out) == P.Run(old(service.Abs(q.agent, P.Nothing)), acts)
  {
    service.Unregister(q.agent);
    answer, acts, out := Accepted, [P.Unregister], P.Nothing;
    P.RunOne(old(service.Abs(q.agent, P.Nothing)), P.Unregister);
  }

  method Interferes(service: ContainmentService, q: Request)
    returns (answer: Answer, ghost acts: seq<P.Action>, ghost out: P.Outcome)
    requires service.Valid() && q.Valid() && q.Interference?
    modifies Everything(service)
    ensures service.Valid() && service.OthersUntouched(q.agent) && Tabled(service, q.agent)
    ensures Explains(Turn(q, acts, answer), old(service.Abs(q.agent, P.Nothing)))
    ensures service.Abs(q.agent, out) == P.Run(old(service.Abs(q.agent, P.Nothing)), acts)
  {
    service.Interfere(q.agent, q.ops);
    answer, acts, out := Accepted, if q.agent in service.agents then P.Threads(q.ops) else [], P.Nothing;
  }

  method Proves(service: ContainmentService, q: Request)
    returns (answer: Answer, ghost acts: seq<P.Action>, ghost out: P.Outcome)
    requires service.Valid() && q.Proof?
    modifies Everything(service)
    ensures service.Valid() && service.OthersUntouched(q.agent) && Tabled(service, q.agent)
    ensures Explains(Turn(q, acts, answer), old(service.Abs(q.agent, P.Nothing)))
    ensures service.Abs(q.agent, out) == P.Run(old(service.Abs(q.agent, P.Nothing)), acts)
  {
    var ok;
    ghost var at;
    ok, at := service.AttachProof(q.agent, q.target, q.reference, q.writes);
    answer := if ok then Accepted else Refused;
    acts, out := if ok then [P.AttachProof(at, true)] else [], P.Nothing;
  }

  /** A controller over a runtime of the caller's own. */
  method Builds(service: ContainmentService, q: Request) returns (controller: ContainmentController)
    requires service.Valid() && q.SuppliedRegistration?
    modifies service.ids
    ensures service.Valid() && fresh(controller) && fresh(controller.runtime)
    ensures controller.runtime.ids == service.ids && controller.runtime.Valid()
    ensures controller.runtime.Abs() == Built(q.owner, old(service.ids.next), q.ops)
            && service.ids.next >= old(service.ids.next)
    ensures service.Abs(q.agent, P.Nothing)
         == P.Step(old(service.Abs(q.agent, P.Nothing)), P.DrawElsewhere(service.ids.next - old(service.ids.next)))
    ensures service.OthersUntouched(q.agent)
  {
    BuiltIsDrawn(q.owner, service.ids.next, q.ops);
    var runtime := new Runtime(q.owner, service.ids);
    runtime.PerformAll(q.ops);
    controller := new ContainmentController(runtime, q.providers, q.replies, {});
    service.Outgrown(q.agent);
  }

  /** Two operations for one agent, the first of which only drew identities. */
  method EntersSupplied(service: ContainmentService, q: Request, policy: Policy.PolicyEngine)
    returns (ok: bool, ghost rt: Rt, ghost drawn: P.Action, ghost out: P.Outcome)
    requires service.Valid() && q.SuppliedRegistration?
    modifies Everything(service)
    ensures service.Valid() && service.OthersUntouched(q.agent) && Tabled(service, q.agent)
    ensures var w := Built(q.owner, old(service.ids.next), q.ops);
            w.next >= old(service.ids.next) && rt == w.rt && drawn == P.DrawElsewhere(w.next - old(service.ids.next))
    ensures ok <==> out == P.RegisterReturned
    ensures service.Abs(q.agent, out)
         == P.Run(P.Step(old(service.Abs(q.agent, P.Nothing)), drawn),
                  RegisterRuns.RegisterActs(Some(rt), q.starts, q.admits, q.settles))
  {
    var controller := Builds(service, q);
    rt, drawn := controller.runtime.View(), P.DrawElsewhere(service.ids.next - old(service.ids.next));
    ghost var s := service.Abs(q.agent, P.Nothing);
    assert s == P.Step(old(service.Abs(q.agent, P.Nothing)), drawn) && service.Supplied(controller) == Some(rt);
    ok, out := Enters(service, q.agent, controller, policy, q.starts, q.admits, q.settles);
  }

  method SupplyRegisters(service: ContainmentService, q: Request, policy: Policy.PolicyEngine)
    returns (answer: Answer, ghost acts: seq<P.Action>, ghost out: P.Outcome)
    requires service.Valid() && q.SuppliedRegistration?
    modifies Everything(service)
    ensures service.Valid() && service.OthersUntouched(q.agent) && Tabled(service, q.agent)
    ensures Explains(Turn(q, acts, answer), old(service.Abs(q.agent, P.Nothing)))
    ensures service.Abs(q.agent, out) == P.Run(old(service.Abs(q.agent, P.Nothing)), acts)
  {
    var ok;
    ghost var rt, drawn;
    ok, rt, drawn, out := EntersSupplied(service, q, policy);
    ghost var registering := RegisterRuns.RegisterActs(Some(rt), q.starts, q.admits, q.settles);
    answer, acts := if ok then Accepted else Refused, [drawn] + registering;
    assert acts[0] == drawn && acts[1..] == registering;
  }

  // Requests that move nothing the protocol sees, or only draw an identity.

  method Issues(service: ContainmentService, q: Request)
    returns (answer: Answer, ghost acts: seq<P.Action>, ghost out: P.Outcome)
    requires service.Valid() && q.Issuance?
    modifies Everything(service)
    ensures service.Valid() && service.OthersUntouched(q.agent) && Tabled(service, q.agent)
    ensures Explains(Turn(q, acts, answer), old(service.Abs(q.agent, P.Nothing)))
    ensures service.Abs(q.agent, out) == P.Run(old(service.Abs(q.agent, P.Nothing)), acts)
  {
    ghost var s := service.Abs(q.agent, P.Nothing);
    var r := service.IssueRecoveryAuthorization(q.agent);
    assert service.Abs(q.agent, P.Nothing) == s;
    answer, acts, out := if r.Ok? then Issued(r.value) else Refused, [], P.Nothing;
  }

  method Reconciles(service: ContainmentService, q: Request)
    returns (answer: Answer, ghost acts: seq<P.Action>, ghost out: P.Outcome)
    requires service.Valid() && q.Reconciliation?
    modifies Everything(service)
    ensures service.Valid() && service.OthersUntouched(q.agent) && Tabled(service, q.agent)
    ensures Explains(Turn(q, acts, answer), old(service.Abs(q.agent, P.Nothing)))
    ensures service.Abs(q.agent, out) == P.Run(old(service.Abs(q.agent, P.Nothing)), acts)
  {
    ghost var s := service.Abs(q.agent, P.Nothing);
    var r := service.ReconcileContainment(q.agent);
    assert service.Abs(q.agent, P.Nothing) == s;
    answer, acts, out := if r.Ok? then Accepted else Refused, [], P.Nothing;
  }

  method CreatesWorkload(service: ContainmentService, q: Request)
    returns (answer: Answer, ghost acts: seq<P.Action>, ghost out: P.Outcome)
    requires service.Valid() && q.Workload?
    modifies Everything(service)
    ensures service.Valid() && service.OthersUntouched(q.agent) && Tabled(service, q.agent)
    ensures Explains(Turn(q, acts, answer), old(service.Abs(q.agent, P.Nothing)))
    ensures service.Abs(q.agent, out) == P.Run(old(service.Abs(q.agent, P.Nothing)), acts)
  {
    var r := service.CreateWorkload(q.agent, q.cgroup);
    answer, acts, out := if r.Ok? then Accepted else Refused, [], P.Nothing;
  }

  method IssuesToken(service: ContainmentService, q: Request)
    returns (answer: Answer, ghost acts: seq<P.Action>, ghost out: P.Outcome)
    requires service.Valid() && q.Token?
    modifies Everything(service)
    ensures service.Valid() && service.OthersUntouched(q.agent) && Tabled(service, q.agent)
    ensures Explains(Turn(q, acts, answer), old(service.Abs(q.agent, P.Nothing)))
    ensures service.Abs(q.agent, out) == P.Run(old(service.Abs(q.agent, P.Nothing)), acts)
  {
    var r := service.IssueIdentityToken(q.agent, q.peerPid);
    answer, acts, out := if r.Ok? then Accepted else Refused, if r.Ok? then [P.DrawElsewhere(1)] else [], P.Nothing;
  }

  // ----- any request -----

  /** A request of the running service. */
  method Calls(service: ContainmentService, q: Request, policy: Policy.PolicyEngine)
    returns (answer: Answer, ghost acts: seq<P.Action>, ghost out: P.Outcome)
    requires service.Valid() && q.Valid() && !q.Restart?
    modifies Everything(service)
    ensures service.Valid() && service.OthersUntouched(q.agent) && Tabled(service, q.agent)
    ensures Explains(Turn(q, acts, answer), old(service.Abs(q.agent, P.Nothing)))
    ensures service.Abs(q.agent, out) == P.Run(old(service.Abs(q.agent, P.Nothing)), acts)
  {
    match q {
      case Containment(_, _, _, _, _, _, _, _) => answer, acts, out := Contains(service, q);
      case Recovery(_, _, _) => answer, acts, out := Recovers(service, q);
      case Registration(_, _, _, _) => answer, acts, out := Registers(service, q, policy);
      case SuppliedRegistration(_, _, _, _, _, _, _, _) => answer, acts, out := SupplyRegisters(service, q, policy);
      case Deregistration(_) => answer, acts, out := Deregisters(service, q);
      case Issuance(_) => answer, acts, out := Issues(service, q);
      case Reconciliation(_) => answer, acts, out := Reconciles(service, q);
      case Workload(_, _) => answer, acts, out := CreatesWorkload(service, q);
      case Token(_, _) => answer, acts, out := IssuesToken(service, q);
      case Interference(_, _) => answer, acts, out := Interferes(service, q);
      case Proof(_, _, _, _) => answer, acts, out := Proves(service, q);
    }
  }

  /** A request of the running service, as agent `a` sees it. */
  method Answers(service: ContainmentService, q: Request, policy: Policy.PolicyEngine, ghost a: string)
    returns (answer: Answer, ghost turn: Turn)
    requires service.Valid() && q.Valid() && !q.Restart?
    modifies Everything(service)
    ensures service.Valid() && Tabled(service, q.agent)
    ensures turn.request == q && turn.answer == answer
    ensures TurnOf(a, turn, old(service.Abs(a, P.Nothing)))
    ensures Follows(old(service.Abs(a, P.Nothing)), turn.acts, service.Abs(a, P.Nothing))
  {
    ghost var acts, out, t;
    answer, acts, out := Calls(service, q, policy);
    turn, t := Turned(service, a, q, acts, answer, out);
  }

  /** The process dies, as agent `a` sees it. */
  method Restarts(service: ContainmentService, ghost a: string) returns (next: ContainmentService, ghost turn: Turn)
    requires service.Valid()
    ensures next.Valid() && fresh(Everything(next) - Everything(service))
    ensures turn == Turn(Restart, [P.Crash], Accepted) && TurnOf(a, turn, service.Abs(a, P.Nothing))
    ensures Follows(service.Abs(a, P.Nothing), turn.acts, next.Abs(a, P.Nothing))
  {
    ghost var s := service.Abs(a, P.Nothing);
    service.RecordsSettled();
    next := Service.Restart(service);
    turn := Turn(Restart, [P.Crash], Accepted);
    P.RunOne(s, P.Crash);
  }

  /** Any request. */
  method Handle(service: ContainmentService, q: Request, policy: Policy.PolicyEngine, ghost a: string)
    returns (next: ContainmentService, answer: Answer, ghost turn: Turn, ghost added: set<object>)
    requires service.Valid() && q.Valid()
    modifies Everything(service)
    ensures next.Valid() && fresh(added) && Everything(next) <= old(Everything(service)) + added
    ensures turn.request == q && turn.answer == answer
    ensures TurnOf(a, turn, old(service.Abs(a, P.Nothing)))
    ensures Follows(old(service.Abs(a, P.Nothing)), turn.acts, next.Abs(a, P.Nothing))
  {
    if q.Restart? {
      next, turn := Restarts(service, a);
      answer := Accepted;
    } else {
      answer, turn := Answers(service, q, policy, a);
      next := service;
      OnlyNewObjects(service, q.agent);
    }
    added := Everything(next) - old(Everything(service));
  }

  /** A service started over any two files. */
  method Starts(incidentsDisk: Records, fencesDisk: Fences, ghost a: string) returns (service: ContainmentService)
    requires WellKept(incidentsDisk) && Settled(incidentsDisk)
    ensures service.Valid() && fresh(Everything(service))
    ensures service.Abs(a, P.Nothing) == Stored(a, incidentsDisk, fencesDisk)
  {
    var ids := new IdSource();
    var incidents := new IncidentRegistry(true, incidentsDisk);
    var fences := new RuntimeFenceRegistry(true, fencesDisk);
    service := new ContainmentService(incidents, fences, ids);
  }

  /** Agent `a` in a machine that is not running, with these files. */
  function Stored(a: string, incidentsDisk: Records, fencesDisk: Fences): P.Sys {
    P.Sys(a, if a in fencesDisk then Some(fencesDisk[a]) else None, Incidents(incidentsDisk, a), P.Down, P.Idle, 0,
          P.Nothing)
  }

  /** The turns answer the script, in order, and take the agent from `s` to `t`. */
  ghost predicate Recounts(a: string, script: seq<Request>, answers: seq<Answer>, trace: seq<P.Sys>, turns: seq<Turn>,
                           s: P.Sys, t: P.Sys) {
    && History(a, trace, turns)
    && |turns| == |answers| == |script|
    && (forall i :: 0 <= i < |script| ==> turns[i].request == script[i] && turns[i].answer == answers[i])
    && trace[0] == s && trace[|turns|] == t
  }

  lemma RecountsFirst(a: string, script: seq<Request>, s: P.Sys)
    requires ProtocolSafety.Safe(s) && s.pc.Idle? && s.out == P.Nothing && s.agent == a
    ensures Recounts(a, script[..0], [], [s], [], s, s)
  {}

  lemma RecountsOn(a: string, script: seq<Request>, k: nat, answers: seq<Answer>, trace: seq<P.Sys>, turns: seq<Turn>,
                   s: P.Sys, t: P.Sys, turn: Turn, u: P.Sys)
    requires k < |script| && Recounts(a, script[..k], answers, trace, turns, s, t)
    requires turn.request == script[k] && TurnOf(a, turn, t) && Follows(t, turn.acts, u)
    requires u.pc.Idle? && u.out == P.Nothing && u.agent == a
    ensures Recounts(a, script[..k + 1], answers + [turn.answer], trace + [u], turns + [turn], s, u)
  {
    HistoryExtended(a, trace, turns, turn, u);
  }

  lemma RecountsAll(a: string, script: seq<Request>, answers: seq<Answer>, trace: seq<P.Sys>, turns: seq<Turn>,
                    s: P.Sys, t: P.Sys)
    requires Recounts(a, script[..|script|], answers, trace, turns, s, t)
    ensures Recounts(a, script, answers, trace, turns, s, t)
  {
    assert script[..|script|] == script;
  }

  /** One more request of the script. */
  method ServesNext(service: ContainmentService, script: seq<Request>, k: nat, policy: Policy.PolicyEngine,
                    ghost a: string,
                    ghost answers: seq<Answer>, ghost trace: seq<P.Sys>, ghost turns: seq<Turn>, ghost s: P.Sys)
    returns (next: ContainmentService, answer: Answer, ghost turn: Turn, ghost t: P.Sys, ghost added: set<object>)
    requires service.Valid() && k < |script| && script[k].Valid()
    requires Recounts(a, script[..k], answers, trace, turns, s, service.Abs(a, P.Nothing))
    modifies Everything(service)
    ensures next.Valid() && fresh(added) && Everything(next) <= old(Everything(service)) + added
    ensures t == next.Abs(a, P.Nothing)
    ensures Recounts(a, script[..k + 1], answers + [answer], trace + [t], turns + [turn], s, t)
  {
    ghost var before := service.Abs(a, P.Nothing);
    next, answer, turn, added := Handle(service, script[k], policy, a);
    t := next.Abs(a, P.Nothing);
    RecountsOn(a, script, k, answers, trace, turns, s, before, turn, t);
  }

  /** A service started over any two files, and everything that is asked of it and happens to it from
      then on: for every agent `a` it is a history of the protocol. */
  method Serve(incidentsDisk: Records, fencesDisk: Fences, script: seq<Request>, policy: Policy.PolicyEngine,
               ghost a: string)
    returns (service: ContainmentService, answers: seq<Answer>, ghost trace: seq<P.Sys>, ghost turns: seq<Turn>)
    requires WellKept(incidentsDisk) && Settled(incidentsDisk) && forall i :: 0 <= i < |script| ==> script[i].Valid()
    ensures service.Valid()
    ensures Recounts(a, script, answers, trace, turns, Stored(a, incidentsDisk, fencesDisk), service.Abs(a, P.Nothing))
  {
    service := Starts(incidentsDisk, fencesDisk, a);
    ghost var s, t, mine := service.Abs(a, P.Nothing), service.Abs(a, P.Nothing), Everything(service);
    answers, trace, turns := [], [s], [];
    RecountsFirst(a, script, s);
    for k := 0 to |script|
      invariant service.Valid() && t == service.Abs(a, P.Nothing) && fresh(mine) && Everything(service) <= mine
      invariant Recounts(a, script[..k], answers, trace, turns, s, t)
    {
      var answer;
      ghost var turn, added;
      service, answer, turn, t, added := ServesNext(service, script, k, policy, a, answers, trace, turns, s);
      answers, trace, turns, mine := answers + [answer], trace + [t], turns + [turn], mine + added;
    }
    RecountsAll(a, script, answers, trace, turns, s, t);
  }
}
