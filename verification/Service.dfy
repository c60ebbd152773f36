/** The controller's service: every method is a run of the protocol for the agent it serves, and
    does not exist for any other agent.
    Source: src/agent_containment/control.py. */
module Service {
  import opened Wrappers
  import opened RuntimeModel
  import opened IncidentRegistry
  import opened FenceRegistry
  import opened Enforcement
  import opened ServiceView
  import opened Policy
  import P = Protocol
  import ContainDiscipline
  import ProtocolRestart
  import RecoverRuns
  import RegisterRuns
  import ProtocolSafety
  import ProtocolTheorems

  datatype ServiceError =
    | UnknownAgent
    | AlreadyRegistered
    | AgentMismatch
    | EmptyAgent
    | StorageUnavailable
    | FenceConflict
    | MissingRecoveryEpoch
    | RecoveryUnsettled
    | StillExecutable
    | EpochDisagrees
    | CannotRestoreRuntime(error: RuntimeError)
    | PermissionDenied
    | NotRecoverable
    | NotHeld
    | FenceMissing
    | Unreconciled(failures: seq<Failure>)
    | FenceNotCleared
    | NotReleasedRemainsContained(failures: seq<Failure>)
    | IncidentNotAdmitted(compensated: bool)
    | RuntimeNotActivated(compensated: bool)
    | ProofNotDegraded
    | InvalidPid
    | NoWorkload
    | WorkloadExists

  /** How an outcome of `recover` reaches the caller. */
  predicate Reports(r: Result<nat, ServiceError>, out: P.Outcome) {
    match out
    case RecoverReturned(epoch) => r == Ok(epoch)
    case RecoverRejected => r.Err? && r.error in {PermissionDenied, NotRecoverable, NotHeld, EpochDisagrees}
    case ClearFailed => r == Err(FenceNotCleared)
    case ReleaseFailed(_) => r.Err? && r.error.NotReleasedRemainsContained? && r.error.failures != []
    case StorageFailed(writesBack, recontained) => r == Err(IncidentNotAdmitted(writesBack && recontained))
    case ActivationFailed(writesBack, recontained) => r == Err(RuntimeNotActivated(writesBack && recontained))
    case _ => false
  }

  /** Compensation has swept the providers again. */
  predicate Recontains(out: P.Outcome) {
    out.StorageFailed? || out.ActivationFailed?
  }

  /** The provider calls of one `recover` that ends in `out`, over the stopped runtime `rt` and after `k`
      earlier calls. */
  function RecoveryCalls(c: ContainmentController, out: P.Outcome, k: nat, rt: Rt): seq<Call> {
    var release := c.SweepOn(Release, k, rt).log;
    if Recontains(out) then release + c.SweepOn(Containment, k + |release|, rt).log
    else if out.RecoverReturned? || out.ReleaseFailed? then release
    else []
  }

  /** What the providers failed to do is what the call says. */
  predicate Tells(r: Result<nat, ServiceError>, out: P.Outcome, unreleased: seq<Failure>, uncontained: seq<Failure>) {
    match out
    case RecoverReturned(_) => unreleased == []
    case ReleaseFailed(_) => r == Err(NotReleasedRemainsContained(unreleased))
    case StorageFailed(_, recontained) => unreleased == [] && recontained == (uncontained == [])
    case ActivationFailed(_, recontained) => unreleased == [] && recontained == (uncontained == [])
    case _ => true
  }

  predicate ProvidersDecide(c: ContainmentController, r: Result<nat, ServiceError>, out: P.Outcome, k: nat, rt: Rt) {
    var release := c.SweepOn(Release, k, rt);
    Tells(r, out, release.failures, c.SweepOn(Containment, k + |release.log|, rt).failures)
  }

  lemma {:induction false} ConfirmedSweep(c: ContainmentController, kind: Kind, k: nat, rt: Rt) returns (s: Swept)
    requires !rt.CanExecute()
    ensures s == c.SweepOn(kind, k, rt) && (s.failures == [] <==> Confirms(kind, |c.providers|, s.log))
  {
    s := c.SweepOn(kind, k, rt);
    SweepConfirms(kind, c.providers, c.replies, k, rt);
  }

  lemma CompensatedTells(r: Result<nat, ServiceError>, out: P.Outcome, unreleased: seq<Failure>,
                         uncontained: seq<Failure>)
    requires Reports(r, out) && Tells(r, out, unreleased, uncontained)
    requires r == Err(IncidentNotAdmitted(true)) || r == Err(RuntimeNotActivated(true))
    ensures Recontains(out) && unreleased == [] && uncontained == []
  {}

  /** The provider calls were those of one recovery over `rt`, and decided its outcome. */
  predicate Driven(c: ContainmentController, before: seq<Call>, after: seq<Call>, r: Result<nat, ServiceError>,
                   out: P.Outcome, rt: Rt)
  {
    after == before + RecoveryCalls(c, out, |before|, rt) && ProvidersDecide(c, r, out, |before|, rt)
  }

  /** After the release, at `mid`, the providers were called exactly by compensation, which says whether it
      held. */
  predicate SweptAgain(c: ContainmentController, mid: seq<Call>, after: seq<Call>, out: P.Outcome, recontained: bool,
                       rt: Rt) {
    var again := c.SweepOn(Containment, |mid|, rt);
    match out
    case RecoverReturned(_) => after == mid
    case StorageFailed(_, held) => after == mid + again.log && held == recontained == (again.failures == [])
    case ActivationFailed(_, held) => after == mid + again.log && held == recontained == (again.failures == [])
    case _ => false
  }

  lemma RejectedDriven(c: ContainmentController, before: seq<Call>, error: ServiceError, rt: Rt)
    ensures Driven(c, before, before, Err(error), P.RecoverRejected, rt)
  {}

  lemma NothingDriven(c: ContainmentController, before: seq<Call>, rt: Rt)
    ensures Driven(c, before, before, Err(FenceNotCleared), P.ClearFailed, rt)
  {}

  lemma ReleaseDriven(c: ContainmentController, before: seq<Call>, fenceBack: bool, rt: Rt)
    ensures var release := c.SweepOn(Release, |before|, rt);
            Driven(c, before, before + release.log, Err(NotReleasedRemainsContained(release.failures)),
                   P.ReleaseFailed(fenceBack), rt)
  {}

  lemma DrivenOnward(c: ContainmentController, before: seq<Call>, mid: seq<Call>, after: seq<Call>, r: Result<nat,
                     ServiceError>, out: P.Outcome, recontained: bool, rt: Rt)
    requires mid == before + c.SweepOn(Release, |before|, rt).log && c.SweepOn(Release, |before|, rt).failures == []
    requires SweptAgain(c, mid, after, out, recontained, rt)
    ensures Driven(c, before, after, r, out, rt)
  {}

  /** What the caller of a recovery is told, in terms of what failed and of what the providers answer to a
      release over `rt`, after `k` earlier calls, and to a containment after it. */
  predicate RecoveryAnswers(c: ContainmentController, r: Result<nat, ServiceError>, s: P.Sys, auth: P.Auth,
                            f: RecoverRuns.Faults, k: nat, rt: Rt)
    requires s.live.Up?
  {
    var unreleased := c.SweepOn(Release, k, rt);
    var uncontained := c.SweepOn(Containment, k + |unreleased.log|, rt);
    if !RecoverRuns.Current(s, auth) then
      r.Err? && r.error in {PermissionDenied, NotRecoverable, NotHeld, EpochDisagrees}
    else if !f.clears && s.fence.Some? then r == Err(FenceNotCleared)
    else if unreleased.failures != [] then r == Err(NotReleasedRemainsContained(unreleased.failures))
    else if !f.admits then r == Err(IncidentNotAdmitted(f.fenceBack && uncontained.failures == []))
    else if f.before != [] then
      r == Err(RuntimeNotActivated(f.fenceBack && f.rollsBack && uncontained.failures == []))
    else r == Ok(auth.epoch + 1)
  }

  lemma AnswersFollow(c: ContainmentController, r: Result<nat, ServiceError>, s: P.Sys, auth: P.Auth,
                      f: RecoverRuns.Faults, t: P.Sys, k: nat, rt: Rt)
    requires s.live.Up? && RecoverRuns.RecoveryLeaves(s, auth, f, t)
    requires Reports(r, t.out) && ProvidersDecide(c, r, t.out, k, rt)
    requires RecoverRuns.Current(s, auth) ==> f.released == (c.SweepOn(Release, k, rt).failures == [])
    ensures RecoveryAnswers(c, r, s, auth, f, k, rt)
  {}

  /** No provider is called by a recovery while the runtime could execute. */
  lemma {:induction false} RecoveryCallsSee(c: ContainmentController, out: P.Outcome, k: nat, rt: Rt)
    requires !rt.CanExecute()
    ensures forall i :: 0 <= i < |RecoveryCalls(c, out, k, rt)| ==> RecoveryCalls(c, out, k, rt)[i].seen == rt
  {
    SweepReports(Release, c.providers, |c.providers|, c.replies, k, rt);
    SweepReports(Containment, c.providers, |c.providers|, c.replies, k + |c.SweepOn(Release, k, rt).log|, rt);
  }

  /** Who is asked in a recovery: nobody before the fence is gone; then every provider to release, the last
      first; and every provider to contain again, the first first, whatever else could be put back, if the
      incident could not be admitted or the runtime not activated. */
  lemma {:induction false} RecoveryAsks(c: ContainmentController, out: P.Outcome, k: nat, rt: Rt)
    returns (release: seq<Call>, again: seq<Call>)
    ensures RecoveryCalls(c, out, k, rt) == release + again
    ensures if out.RecoverReturned? || out.ReleaseFailed? || out.StorageFailed? || out.ActivationFailed?
            then AsksEach(Release, c.providers, |c.providers|, Swept(c.SweepOn(Release, k, rt).failures, release))
            else release == []
    ensures if out.StorageFailed? || out.ActivationFailed?
            then AsksEach(Containment, c.providers, |c.providers|,
                          Swept(c.SweepOn(Containment, k + |release|, rt).failures, again))
            else again == []
  {
    release, again := [], [];
    if out.RecoverReturned? || out.ReleaseFailed? || out.StorageFailed? || out.ActivationFailed? {
      release := c.SweepOn(Release, k, rt).log;
      SweepAsks(Release, c.providers, |c.providers|, c.replies, k, rt);
    }
    if out.StorageFailed? || out.ActivationFailed? {
      again := c.SweepOn(Containment, k + |release|, rt).log;
      SweepAsks(Containment, c.providers, |c.providers|, c.replies, k + |release|, rt);
    }
  }

  /** When a recovery returns, every provider has been released and verified, over the runtime as it was
      before the activation. */
  lemma {:induction false} ReturnMeansReleased(c: ContainmentController, r: Result<nat, ServiceError>, out: P.Outcome,
                                               k: nat, rt: Rt)
    requires !rt.CanExecute() && Reports(r, out) && ProvidersDecide(c, r, out, k, rt) && r.Ok?
    ensures Confirms(Release, |c.providers|, RecoveryCalls(c, out, k, rt))
    ensures Reached(|c.providers|, RecoveryCalls(c, out, k, rt), DoRelease, VerifyReleased, Released)
  {
    SweepConfirms(Release, c.providers, c.replies, k, rt);
    ReleaseInReverse(|c.providers|, RecoveryCalls(c, out, k, rt));
  }

  lemma CallsOfCompensated(c: ContainmentController, out: P.Outcome, k: nat, rt: Rt)
    requires Recontains(out)
    ensures var release := c.SweepOn(Release, k, rt).log;
            RecoveryCalls(c, out, k, rt) == release + c.SweepOn(Containment, k + |release|, rt).log
  {}

  /** When it raises and says that it was compensated, every provider has been released and verified, and
      then applied and verified again. */
  lemma {:induction false} CompensatedMeansReapplied(c: ContainmentController, r: Result<nat, ServiceError>,
                                                     out: P.Outcome, k: nat, rt: Rt)
    returns (release: seq<Call>, again: seq<Call>)
    requires !rt.CanExecute() && Reports(r, out) && ProvidersDecide(c, r, out, k, rt)
    requires r == Err(IncidentNotAdmitted(true)) || r == Err(RuntimeNotActivated(true))
    ensures RecoveryCalls(c, out, k, rt) == release + again
    ensures Confirms(Release, |c.providers|, release) && Confirms(Containment, |c.providers|, again)
    ensures Reached(|c.providers|, release, DoRelease, VerifyReleased, Released)
    ensures Reached(|c.providers|, again, DoContain, VerifyContained, Enforced)
  {
    var first := ConfirmedSweep(c, Release, k, rt);
    var second := ConfirmedSweep(c, Containment, k + |first.log|, rt);
    CompensatedTells(r, out, first.failures, second.failures);
    CallsOfCompensated(c, out, k, rt);
    release, again := first.log, second.log;
    ReleaseInReverse(|c.providers|, release);
    ContainmentInOrder(|c.providers|, again);
  }

  /** Where registration goes once the fence has admitted the runtime. */
  datatype Admission = ToPrepare(epoch: nat) | ToContained | ToInstall {
    function Next(rt: Rt, supplied: bool): P.Pc {
      match this
      case ToPrepare(epoch) => P.RegPrepare(rt, epoch)
      case ToContained => P.RegContained(rt, supplied)
      case ToInstall => P.RegInstall(rt, supplied)
    }
  }

  class ManagedAgent {
    const runtime: Runtime
    const containment: ContainmentController
    const policy: PolicyEngine
    var recoveryCapability: Id
    var identityDigest: Option<Id>
    var identityPid: Option<int>
    var identityCgroup: Option<string>

    constructor (runtime: Runtime, containment: ContainmentController, policy: PolicyEngine, recoveryCapability: Id)
      ensures this.runtime == runtime && this.containment == containment && this.policy == policy
      ensures this.recoveryCapability == recoveryCapability
      ensures identityDigest.None? && identityPid.None? && identityCgroup.None?
    {
      this.runtime := runtime;
      this.containment := containment;
      this.policy := policy;
      this.recoveryCapability := recoveryCapability;
      identityDigest := None;
      identityPid := None;
      identityCgroup := None;
    }

    /** Whether the identity presented is the one the controller issued. */
    predicate Authenticates(token: Option<Id>, peerPid: Option<int>, member: bool)
      reads this
    {
      && token.Some? && identityDigest == token
      && (identityPid.None? || peerPid == identityPid)
      && identityCgroup.Some? && peerPid.Some? && member
    }
  }

  class ContainmentService {
    const incidents: IncidentRegistry
    const fences: RuntimeFenceRegistry
    const ids: IdSource
    var agents: map<string, ManagedAgent>

    /** A service over the registries of a new process; nothing is registered yet. */
    constructor (incidents: IncidentRegistry, fences: RuntimeFenceRegistry, ids: IdSource)
      requires incidents.Valid() && incidents.persistent && WellKept(incidents.records) && Settled(incidents.records)
      requires fences.Valid() && fences.persistent
      ensures Valid() && agents == map[]
      ensures this.incidents == incidents && this.fences == fences && this.ids == ids
    {
      this.incidents := incidents;
      this.fences := fences;
      this.ids := ids;
      agents := map[];
      SettledView(incidents.records);
    }

    ghost function Objects(): set<object>
      reads this, agents.Values
    {
      agents.Values + (set m | m in agents.Values :: m.runtime as object)
    }

    ghost predicate Registries()
      reads incidents, fences
    {
      && incidents.Valid() && incidents.persistent && WellKept(incidents.records)
      && fences.Valid() && fences.persistent
    }

    /** The table entry of agent `a` is in order. */
    ghost predicate Ready(a: string, managed: ManagedAgent)
      reads incidents, fences, ids, managed, managed.runtime
    {
      && Registries() && a != ""
      && managed.runtime.agentId == a && managed.runtime.ids == ids && managed.runtime.Valid()
      && managed.containment.runtime == managed.runtime
      && managed.recoveryCapability == managed.runtime.capability
    }

    /** The table is in order. */
    ghost predicate InOrder()
      reads this, incidents, fences, ids, Objects()
    {
      && Registries()
      && (forall a :: a in agents ==> Ready(a, agents[a]))
      && (forall a, b :: a in agents && b in agents && a != b ==>
            agents[a] != agents[b] && agents[a].runtime != agents[b].runtime
              && agents[a].containment != agents[b].containment)
    }

    ghost function LiveOf(a: string): P.Live
      reads this, Objects()
    {
      if a in agents then P.Up(agents[a].runtime.View(), agents[a].recoveryCapability) else P.Down
    }

    /** What the protocol of agent `a` sees of the service between operations. */
    ghost function Abs(a: string, out: P.Outcome): P.Sys
      reads this, incidents, fences, ids, Objects()
    {
      P.Sys(a, fences.Get(a), Incidents(incidents.records, a), LiveOf(a), P.Idle, ids.next, out)
    }

    /** Every agent is where the protocol keeps it. */
    ghost predicate Guarded()
      reads this, incidents, fences, ids, Objects()
    {
      forall a: string :: ProtocolSafety.Safe(Abs(a, P.Nothing))
    }

    ghost predicate Valid()
      reads this, incidents, fences, ids, Objects()
    {
      InOrder() && Guarded()
    }

    lemma RecordsSettled()
      requires Valid()
      ensures Settled(incidents.records)
    {
      SettledView(incidents.records);
      forall a: string ensures ProtocolSafety.WellFormed(Incidents(incidents.records, a)) {
        assert ProtocolSafety.Safe(Abs(a, P.Nothing));
      }
    }

    /** The same, while an operation works on the table entry `managed`. */
    ghost function View(a: string, managed: ManagedAgent, out: P.Outcome): P.Sys
      reads incidents, fences, ids, managed, managed.runtime
    {
      P.Sys(a, fences.Get(a), Incidents(incidents.records, a),
            P.Up(managed.runtime.View(), managed.recoveryCapability), P.Idle, ids.next, out)
    }

    /** The registries hold the same about every other agent. */
    twostate predicate OthersKept(a: string)
      reads incidents, fences, ids
    {
      && SameForOthers(old(incidents.records), incidents.records, a)
      && (forall b :: b != a ==> fences.Get(b) == old(fences.Get(b)))
      && ids.next >= old(ids.next)
    }

    /** For every other agent, nothing but the supply of identities has moved. */
    twostate predicate OthersUntouched(a: string)
      reads this, incidents, fences, ids, Objects()
    {
      OthersKept(a) && forall b :: b != a ==> LiveOf(b) == old(LiveOf(b))
    }

    ghost function Entry(a: string): set<ManagedAgent>
      reads this
    {
      if a in agents then {agents[a]} else {}
    }

    ghost function Footprint(a: string): set<object>
      reads this
    {
      {incidents, fences, ids} + if a in agents then {agents[a], agents[a].runtime, agents[a].containment} else {}
    }

    /** An operation that left one table entry in order left the service in order. */
    twostate lemma OneAgentMoved(a: string)
      requires old(InOrder()) && agents == old(agents) && a in agents
      requires forall b :: b in agents && b != a ==> unchanged(agents[b]) && unchanged(agents[b].runtime)
      requires Ready(a, agents[a]) && OthersKept(a)
      ensures InOrder() && OthersUntouched(a)
    {}

    /** An operation that at most added one table entry, in order, left the service in order. */
    twostate lemma OneAgentEntered(a: string)
      requires old(InOrder()) && a !in old(agents) && Registries() && OthersKept(a)
      requires agents == if a in agents then old(agents)[a := agents[a]] else old(agents)
      requires forall b :: b in old(agents) ==> unchanged(old(agents[b])) && unchanged(old(agents[b]).runtime)
      requires a in agents ==> Ready(a, agents[a]) && agents[a] !in old(agents.Values)
      ensures InOrder() && OthersUntouched(a)
    {}

    /** An operation that only works on providers or identities moves nothing the protocol sees. */
    twostate lemma NothingMoved(new a: string)
      requires old(Valid()) && unchanged(this, incidents, fences, ids)
      requires forall b :: b in agents ==>
                unchanged(agents[b].runtime) && agents[b].recoveryCapability == old(agents[b].recoveryCapability)
      ensures Valid() && OthersUntouched(a) && forall b :: Abs(b, P.Nothing) == old(Abs(b, P.Nothing))
    {
      forall b: string ensures Abs(b, P.Nothing) == old(Abs(b, P.Nothing)) && ProtocolSafety.Safe(Abs(b, P.Nothing)) {
        assert ProtocolSafety.Safe(old(Abs(b, P.Nothing)));
      }
    }

    /** A run of the protocol for one agent leaves every agent where the protocol keeps it. */
    twostate lemma Ran(new a: string, new acts: seq<P.Action>, new out: P.Outcome)
      requires old(Guarded()) && OthersUntouched(a)
      requires Abs(a, out) == P.Run(old(Abs(a, P.Nothing)), acts)
      ensures Guarded()
    {
      forall b: string ensures ProtocolSafety.Safe(Abs(b, P.Nothing)) {
        var s := old(Abs(b, P.Nothing));
        assert ProtocolSafety.Safe(s);
        if b == a {
          ProtocolSafety.SafeRun(s, acts);
          ProtocolTheorems.SafeElsewhere(Abs(a, out), ids.next, P.Nothing);
        } else {
          ProtocolTheorems.SafeElsewhere(s, ids.next, P.Nothing);
          assert Abs(b, P.Nothing) == s.(next := ids.next);
        }
      }
    }

    /** A process that only draws identities moves nothing else. */
    twostate lemma Outgrown(new a: string)
      requires old(Valid()) && unchanged(this, incidents, fences) && ids.next >= old(ids.next)
      requires forall b :: b in agents ==> unchanged(agents[b]) && unchanged(agents[b].runtime)
      ensures Valid() && OthersUntouched(a)
              && forall b :: Abs(b, P.Nothing) == old(Abs(b, P.Nothing)).(next := ids.next)
    {
      forall b: string
        ensures Abs(b, P.Nothing) == old(Abs(b, P.Nothing)).(next := ids.next) && ProtocolSafety.Safe(Abs(b, P.Nothing))
      {
        var s := old(Abs(b, P.Nothing));
        assert ProtocolSafety.Safe(s);
        ProtocolTheorems.SafeElsewhere(s, ids.next, P.Nothing);
        assert Abs(b, P.Nothing) == s.(next := ids.next);
      }
    }

    /** Drawing identities leaves every agent where the protocol keeps it. */
    twostate lemma Drew(a: string)
      requires old(Guarded()) && OthersUntouched(a) && unchanged(incidents, fences) && LiveOf(a) == old(LiveOf(a))
      ensures Guarded() && Abs(a, P.Nothing) == P.Run(old(Abs(a, P.Nothing)),
                                                      [P.DrawElsewhere(ids.next - old(ids.next))])
    {
      var acts := [P.DrawElsewhere(ids.next - old(ids.next))];
      P.RunOne(old(Abs(a, P.Nothing)), acts[0]);
      Ran(a, acts, P.Nothing);
    }

    /** So do threads that hold only the runtime's lock: what they do is a run of the protocol. */
    twostate lemma ThreadsRan(new a: string, new ops: seq<Op>)
      requires old(Guarded()) && OthersUntouched(a) && unchanged(incidents, fences)
      requires a in agents && a in old(agents) && Stops(ops)
      requires LiveOf(a).Up? && old(LiveOf(a)).Up? && LiveOf(a).capability == old(LiveOf(a)).capability
      requires World(LiveOf(a).rt, ids.next) == ApplyAll(World(old(LiveOf(a)).rt, old(ids.next)), ops)
      ensures Guarded() && Abs(a, P.Nothing) == P.Run(old(Abs(a, P.Nothing)), P.Threads(ops))
    {
      P.RunThreads(old(Abs(a, P.Nothing)), ops);
      Ran(a, P.Threads(ops), P.Nothing);
    }

    // ----- the registries, as one agent sees them -----

    method Latest(a: string) returns (r: Option<IncidentRecord>, ghost at: nat)
      requires Registries() && a != ""
      ensures P.Latest(Incidents(incidents.records, a)) == if r.Some? then Some(ProjectOne(r.value)) else None
      ensures r.Some? ==>
                && IsLatest(incidents.records, a, at) && incidents.records[at] == r.value
                && HasId(incidents.records, r.value.incidentId) && IndexOf(incidents.records, r.value.incidentId) == at
    {
      var found, where := incidents.LatestForAgent(a);
      r, at := found.value, where;
      if r.Some? {
        LatestView(incidents.records, a, at);
      } else {
        NoneView(incidents.records, a);
      }
    }

    method Record(a: string, target: nat, epoch: nat, reason: string, now: real, writes: bool) returns (ok: bool)
      requires Registries() && a != "" && Later(incidents.records, now)
      modifies incidents
      ensures Registries()
      ensures ok <==> writes && !P.Known(old(Incidents(incidents.records, a)), IncidentId(a, target))
      ensures Incidents(incidents.records, a)
              == if ok then P.Recorded(a, old(Incidents(incidents.records, a)), target, epoch)
                else old(Incidents(incidents.records, a))
      ensures SameForOthers(old(incidents.records), incidents.records, a)
    {
      KnownView(incidents.records, a, target);
      var id := IncidentId(a, target);
      if !HasId(incidents.records, id) {
        AppendView(incidents.records, a, target, epoch, now, Some(reason));
      }
      var r := incidents.RecordContainment(id, a, epoch, Some(reason), now, writes);
      ok := r.Ok?;
    }

    /** Rewriting the agent's latest incident. */
    method Restore(a: string, record: IncidentRecord, ghost at: nat, writes: bool) returns (ok: bool)
      requires Registries() && IsLatest(incidents.records, a, at) && incidents.records[at] == record
      modifies incidents
      ensures Registries()
      ensures ok <==> writes && record.state == Recovered
      ensures var before := old(Incidents(incidents.records, a));
              && before != []
              && Incidents(incidents.records, a)
                 == if ok then P.SetState(before, |before| - 1, IncidentState.Contained) else before
      ensures SameForOthers(old(incidents.records), incidents.records, a)
      ensures IsLatest(incidents.records, a, at)
    {
      LatestUpdated(incidents.records, a, at, AsRestored(record));
      var r := incidents.RestoreContained(record.incidentId, writes);
      ok := r.Ok?;
    }

    method Admit(a: string, record: IncidentRecord, ghost at: nat, writes: bool) returns (ok: bool)
      requires Registries() && IsLatest(incidents.records, a, at) && incidents.records[at] == record
      requires record.state in {IncidentState.Contained, ProofDegraded}
      modifies incidents
      ensures Registries()
      ensures ok == writes
      ensures var before := old(Incidents(incidents.records, a));
              && before != []
              && Incidents(incidents.records, a) == if ok then P.Admit(before, |before| - 1) else before
      ensures SameForOthers(old(incidents.records), incidents.records, a)
      ensures IsLatest(incidents.records, a, at)
      ensures incidents.records[at] == if ok then AsAdmitted(record) else record
    {
      LatestUpdated(incidents.records, a, at, AsAdmitted(record));
      var r := incidents.MarkRecovered(record.incidentId, writes);
      ok := r.Ok?;
      assert incidents.records == if ok then old(incidents.records)[at := AsAdmitted(record)]
                                  else old(incidents.records);
    }

    /** The degradation of the incident filed under `target`, if there is one. */
    method Degrade(a: string, target: nat, writes: bool) returns (ok: bool)
      requires Registries()
      modifies incidents
      ensures Registries()
      ensures var before := old(Incidents(incidents.records, a)); var id := IncidentId(a, target);
              && (ok <==> (P.Known(before, id) ==> writes))
              && Incidents(incidents.records, a)
                 == if P.Known(before, id) && writes then P.SetState(before, P.Find(before, id), ProofDegraded)
                   else before
      ensures SameForOthers(old(incidents.records), incidents.records, a)
    {
      var id := IncidentId(a, target);
      KnownView(incidents.records, a, target);
      var k := incidents.Find(id);
      if k == |incidents.records| {
        return true;
      }
      UpdateView(incidents.records, k, AsDegraded(incidents.records[k], "audit persistence unavailable"));
      var r := incidents.MarkProofDegraded(id, "audit persistence unavailable", writes);
      ok := r.Ok?;
    }

    // ----- contain -----

    /** The controller has swept its providers once over the stopped runtime `rt`, after the calls `before`,
        and reports what came of it. */
    static predicate SweptOnce(c: ContainmentController, hooks: seq<Hook>, before: seq<Call>, after: seq<Call>, rt: Rt,
                           report: ContainmentReport)
    {
      && after == before + c.SweepOn(Containment, |before|, rt).log
      && report == c.Reported(hooks, |before|, rt)
    }

    static method RevokeIdentity(managed: ManagedAgent)
      modifies managed`identityDigest, managed`identityPid
      ensures managed.identityDigest.None? && managed.identityPid.None?
    {
      managed.identityDigest := None;
      managed.identityPid := None;
    }

    /** Runtime, providers and identity, with other threads getting in before and after the fence. */
    static method Stop(managed: ManagedAgent, hooks: seq<Hook>, r1: seq<Op>, r2: seq<Op>)
      returns (report: ContainmentReport)
      requires managed.runtime.Valid() && managed.containment.runtime == managed.runtime && Stops(r1) && Stops(r2)
      modifies managed`identityDigest, managed`identityPid, managed.runtime, managed.runtime.ids, managed.containment
      ensures managed.runtime.Valid() && managed.runtime.state != Active && managed.containment.capabilities == {}
      ensures managed.runtime.Abs() == ContainDiscipline.Stopping(old(managed.runtime.Abs()), r1, r2)
      ensures managed.runtime.capability == old(managed.runtime.capability)
              && managed.runtime.ids.next >= old(managed.runtime.ids.next)
      ensures managed.identityDigest.None? && managed.identityPid.None?
      ensures SweptOnce(managed.containment, hooks, old(managed.containment.log), managed.containment.log,
                        managed.runtime.View(), report)
    {
      StopsCount(managed.runtime.Abs(), r1);
      managed.runtime.PerformAll(r1);
      StopsCount(Apply(managed.runtime.Abs(), OpContain), r2);
      report := managed.containment.Contain(hooks, r2);
      RevokeIdentity(managed);
    }

    /** The device answers, and the identifier is not taken. */
    ghost predicate Recordable(a: string, target: nat, writes: bool)
      reads incidents
    {
      writes && !P.Known(Incidents(incidents.records, a), IncidentId(a, target))
    }

    /** The incident, and its degradation if the audit log fails. */
    method Persist(a: string, target: nat, epoch: nat, now: real, incidentWrites: bool, audited: bool,
                   degradeWrites: bool)
      returns (recorded: bool, ok: bool)
      requires Registries() && a != "" && Later(incidents.records, now)
      modifies incidents
      ensures Registries() && SameForOthers(old(incidents.records), incidents.records, a)
      ensures var incs := ContainDiscipline.Written(a, old(Incidents(incidents.records, a)), target, epoch,
                                                    incidentWrites);
              && Incidents(incidents.records, a) == ContainDiscipline.Audited(a, incs, target, audited, degradeWrites)
              && (ok <==> audited || degradeWrites || !P.Known(incs, IncidentId(a, target)))
      ensures recorded <==> old(Recordable(a, target, incidentWrites))
    {
      recorded := Record(a, target, epoch, "controller containment requested", now, incidentWrites);
      ok := true;
      if !audited {
        ok := Degrade(a, target, degradeWrites);
      }
    }

    /** `contain` for a registered agent, up to the report. */
    method ContainManaged(a: string, managed: ManagedAgent, now: real, hooks: seq<Hook>, fenceWrites: bool, r1: seq<Op>,
                          r2: seq<Op>, incidentWrites: bool, audited: bool, degradeWrites: bool)
      returns (report: ContainmentReport, fenced: bool, recorded: bool, ok: bool)
      requires Ready(a, managed) && Later(incidents.records, now) && Stops(r1) && Stops(r2)
      modifies incidents, fences, ids, managed`identityDigest, managed`identityPid, managed.runtime, managed.containment
      ensures Ready(a, managed) && OthersKept(a)
      ensures View(a, managed, if ok then P.ContainReturned else P.ContainRaised)
           == ContainDiscipline.Contained(old(View(a, managed, P.Nothing)), fenceWrites, r1, r2, incidentWrites,
                                          audited, degradeWrites)
      ensures managed.identityDigest.None? && managed.identityPid.None? && managed.runtime.state != Active
      ensures SweptOnce(managed.containment, hooks, old(managed.containment.log), managed.containment.log,
                        managed.runtime.View(), report)
      ensures fenced == fenceWrites
      ensures recorded <==> old(Recordable(a, managed.runtime.epoch + 1, incidentWrites))
    {
      ghost var s := View(a, managed, P.Nothing);
      var nextEpoch := managed.runtime.epoch + 1;
      var prepared := fences.Prepare(a, nextEpoch, fenceWrites);
      fenced := prepared.Ok?;
      ghost var t := s.(fence := if fenceWrites then Some(nextEpoch) else s.fence);
      assert View(a, managed, P.Nothing) == t;
      report := Stop(managed, hooks, r1, r2);
      ghost var w := ContainDiscipline.Stopping(World(s.live.rt, s.next), r1, r2);
      assert View(a, managed, P.Nothing) == t.(live := s.live.(rt := w.rt), next := w.next);
      recorded, ok := Persist(a, nextEpoch, report.epoch, now, incidentWrites, audited, degradeWrites);
    }

    /** What the report says of the two writes. */
    static function PersistenceFailures(fenced: bool, recorded: bool): seq<string> {
      (if fenced then [] else ["durable fence persistence unavailable"])
      + if recorded then [] else ["incident persistence unavailable"]
    }

    /** What the returned report says of the sweep, of the hooks, and of the two writes. */
    static ghost predicate Says(c: ContainmentController, hooks: seq<Hook>, before: seq<Call>, after: seq<Call>,
                                 rt: Rt, report: ContainmentReport, fenced: bool, recorded: bool)
    {
      && SweptOnce(c, hooks, before, after, rt, report.(persistenceFailures := []))
      && report.agentId == rt.agentId && report.epoch == rt.epoch
      && var clean := forall i :: 0 <= i < |hooks| ==> hooks[i].raises.None?;
         var confirmed := Confirms(Containment, |c.providers|, after[|before|..]);
         && (report.Complete() <==> clean && confirmed)
         && (report.Certified() <==> clean && confirmed && c.providers != [])
         && (report.Durable() <==> fenced && recorded)
         && report.persistenceFailures
            == (if fenced then [] else ["durable fence persistence unavailable"])
               + if recorded then [] else ["incident persistence unavailable"]
    }

    static lemma ReportSays(c: ContainmentController, hooks: seq<Hook>, before: seq<Call>, after: seq<Call>, rt: Rt,
                             report: ContainmentReport, fenced: bool, recorded: bool)
      requires !rt.CanExecute() && SweptOnce(c, hooks, before, after, rt, report.(persistenceFailures := []))
      requires report.persistenceFailures == PersistenceFailures(fenced, recorded)
      ensures Says(c, hooks, before, after, rt, report, fenced, recorded)
    {
      c.ReportAccounts(hooks, |before|, rt);
      assert after[|before|..] == c.SweepOn(Containment, |before|, rt).log;
    }

    static method Amend(report: ContainmentReport, fenced: bool, recorded: bool) returns (amended: ContainmentReport)
      requires report.Durable()
      ensures amended == report.(persistenceFailures := PersistenceFailures(fenced, recorded))
    {
      amended := report;
      if !fenced {
        amended := amended.WithPersistenceFailure("durable fence persistence unavailable");
      }
      if !recorded {
        amended := amended.WithPersistenceFailure("incident persistence unavailable");
      }
    }

    /** The same, with the report as the caller gets it: durable exactly when both writes were made. */
    method ContainAndReport(a: string, managed: ManagedAgent, now: real, hooks: seq<Hook>, fenceWrites: bool,
                            r1: seq<Op>, r2: seq<Op>, incidentWrites: bool, audited: bool, degradeWrites: bool)
      returns (report: ContainmentReport, ok: bool)
      requires Ready(a, managed) && Later(incidents.records, now) && Stops(r1) && Stops(r2)
      modifies incidents, fences, ids, managed`identityDigest, managed`identityPid, managed.runtime, managed.containment
      ensures Ready(a, managed) && OthersKept(a)
      ensures View(a, managed, if ok then P.ContainReturned else P.ContainRaised)
           == ContainDiscipline.Contained(old(View(a, managed, P.Nothing)), fenceWrites, r1, r2, incidentWrites,
                                          audited, degradeWrites)
      ensures managed.identityDigest.None? && managed.identityPid.None?
              && managed.identityCgroup == old(managed.identityCgroup)
      ensures managed.runtime.state != Active
      ensures Says(managed.containment, hooks, old(managed.containment.log), managed.containment.log,
                    managed.runtime.View(), report, fenceWrites,
                    old(Recordable(a, managed.runtime.epoch + 1, incidentWrites)))
    {
      var fenced, recorded;
      report, fenced, recorded, ok := ContainManaged(a, managed, now, hooks, fenceWrites, r1, r2, incidentWrites,
                                                     audited, degradeWrites);
      report := Amend(report, fenced, recorded);
      ReportSays(managed.containment, hooks, old(managed.containment.log), managed.containment.log,
                  managed.runtime.View(), report, fenced, recorded);
    }

    /** `contain` for a registered agent. */
    method ContainRegistered(a: string, managed: ManagedAgent, now: real, hooks: seq<Hook>, fenceWrites: bool,
                             r1: seq<Op>, r2: seq<Op>, incidentWrites: bool, audited: bool, degradeWrites: bool)
      returns (report: ContainmentReport, ok: bool)
      requires InOrder() && a in agents && agents[a] == managed
      requires Later(incidents.records, now) && Stops(r1) && Stops(r2)
      modifies incidents, fences, ids
      modifies managed`identityDigest, managed`identityPid, managed.runtime, managed.containment
      ensures InOrder() && OthersUntouched(a)
      ensures Abs(a, if ok then P.ContainReturned else P.ContainRaised)
           == ContainDiscipline.Contained(old(Abs(a, P.Nothing)), fenceWrites, r1, r2, incidentWrites, audited,
                                          degradeWrites)
      ensures managed.identityDigest.None? && managed.identityPid.None? && managed.runtime.state != Active
      ensures Says(managed.containment, hooks, old(managed.containment.log), managed.containment.log,
                    managed.runtime.View(), report, fenceWrites,
                    old(Recordable(a, managed.runtime.epoch + 1, incidentWrites)))
    {
      report, ok := ContainAndReport(a, managed, now, hooks, fenceWrites, r1, r2, incidentWrites, audited,
                                     degradeWrites);
      OneAgentMoved(a);
    }

    twostate lemma ContainRan(new a: string, new fenced: bool, new r1: seq<Op>, new r2: seq<Op>, new recorded: bool,
                              new audited: bool, new degraded: bool, new out: P.Outcome)
      requires old(Guarded()) && OthersUntouched(a) && Stops(r1) && Stops(r2) && old(LiveOf(a)).Up?
      requires Abs(a, out)
            == ContainDiscipline.Contained(old(Abs(a, P.Nothing)), fenced, r1, r2, recorded, audited, degraded)
      ensures Guarded()
      ensures Abs(a, out)
           == P.Run(old(Abs(a, P.Nothing)),
                    ContainDiscipline.ContainActs(fenced, r1, r2, recorded, audited, degraded))
    {
      ContainDiscipline.ContainResult(old(Abs(a, P.Nothing)), fenced, r1, r2, recorded, audited, degraded);
      Ran(a, ContainDiscipline.ContainActs(fenced, r1, r2, recorded, audited, degraded), out);
    }

    /** The same, as a run of the protocol. */
    method ContainRun(a: string, managed: ManagedAgent, now: real, hooks: seq<Hook>, fenceWrites: bool, r1: seq<Op>,
                      r2: seq<Op>, incidentWrites: bool, audited: bool, degradeWrites: bool)
      returns (report: ContainmentReport, ok: bool)
      requires Valid() && a in agents && agents[a] == managed
      requires Later(incidents.records, now) && Stops(r1) && Stops(r2)
      modifies incidents, fences, ids
      modifies managed`identityDigest, managed`identityPid, managed.runtime, managed.containment
      ensures Valid() && OthersUntouched(a)
      ensures Abs(a, if ok then P.ContainReturned else P.ContainRaised)
           == P.Run(old(Abs(a, P.Nothing)),
                    ContainDiscipline.ContainActs(fenceWrites, r1, r2, incidentWrites, audited, degradeWrites))
      ensures managed.identityDigest.None? && managed.identityPid.None? && managed.runtime.state != Active
      ensures Says(managed.containment, hooks, old(managed.containment.log), managed.containment.log,
                    managed.runtime.View(), report, fenceWrites,
                    old(Recordable(a, managed.runtime.epoch + 1, incidentWrites)))
    {
      report, ok := ContainRegistered(a, managed, now, hooks, fenceWrites, r1, r2, incidentWrites, audited,
                                      degradeWrites);
      ghost var out := if ok then P.ContainReturned else P.ContainRaised;
      ContainRan(a, fenceWrites, r1, r2, incidentWrites, audited, degradeWrites, out);
    }

    /** `contain` as a run of the protocol; `ContainDiscipline.ContainLeaves` says what it leaves. `r1` and `r2`:
        what threads that hold only the runtime's lock do to it after `contain` has read the epoch, before
        and after its own fence. The flags say how the devices and the audit log answer. */
    method Contain(a: string, now: real, hooks: seq<Hook>, fenceWrites: bool, r1: seq<Op>, r2: seq<Op>,
                   incidentWrites: bool, audited: bool, degradeWrites: bool)
      returns (r: Result<ContainmentReport, ServiceError>)
      requires Valid() && Later(incidents.records, now) && Stops(r1) && Stops(r2)
      modifies Footprint(a)
      ensures Valid() && OthersUntouched(a) && agents == old(agents)
      ensures a !in agents ==> r == Err(UnknownAgent) && Abs(a, P.Nothing) == old(Abs(a, P.Nothing))
      ensures a in agents ==>
                Abs(a, if r.Ok? then P.ContainReturned else P.ContainRaised)
                == P.Run(old(Abs(a, P.Nothing)),
                         ContainDiscipline.ContainActs(fenceWrites, r1, r2, incidentWrites, audited, degradeWrites))
      ensures r.Ok? ==> a in agents
      // The providers have been applied once, over a runtime that cannot execute, whatever is returned or
      // raised; a report is the controller's own, with the two writes that may have failed.
      ensures a in agents ==>
                var managed := agents[a]; var c := managed.containment;
                && managed.runtime.state != Active
                && c.log == old(c.log) + c.SweepOn(Containment, |old(c.log)|, managed.runtime.View()).log
      // What the report says of the hooks, of the calls the providers have just got, and of the two writes.
      ensures r.Ok? ==>
                var c := agents[a].containment;
                Says(c, hooks, old(c.log), c.log, agents[a].runtime.View(), r.value, fenceWrites,
                     incidentWrites && !P.Known(old(Incidents(incidents.records, a)),
                                                IncidentId(a, old(agents[a].runtime.epoch) + 1)))
      ensures a in agents ==>
                && agents[a].identityDigest.None? && agents[a].identityPid.None?
                && agents[a].identityCgroup == old(agents[a].identityCgroup)
    {
      if a !in agents {
        return Err(UnknownAgent);
      }
      var report, ok := ContainRun(a, agents[a], now, hooks, fenceWrites, r1, r2, incidentWrites, audited,
                                   degradeWrites);
      return if ok then Ok(report) else Err(ProofNotDegraded);
    }

    // ----- recover -----

    /** The checks `recover` makes before it touches anything. */
    method CheckAuthorization(a: string, managed: ManagedAgent, auth: P.Auth)
      returns (r: Result<IncidentRecord, ServiceError>, ghost at: nat)
      requires Ready(a, managed)
      ensures r.Ok? <==> P.Admissible(View(a, managed, P.Nothing), auth)
      ensures r.Ok? ==> IsLatest(incidents.records, a, at) && incidents.records[at] == r.value
                        && r.value.containmentEpoch == auth.epoch && ProjectOne(r.value).Standing()
      ensures r.Err? ==> Reports(Err(r.error), P.RecoverRejected)
    {
      at := 0;
      if auth.agentId != a {
        return Err(PermissionDenied), at;
      }
      if auth.capability != managed.recoveryCapability {
        return Err(PermissionDenied), at;
      }
      var latest, where := Latest(a);
      at := where;
      if latest.None? || latest.value.state !in {IncidentState.Contained, ProofDegraded} {
        return Err(NotRecoverable), at;
      }
      if auth.epoch != latest.value.containmentEpoch {
        return Err(PermissionDenied), at;
      }
      if managed.runtime.state != RuntimeState.Contained {
        return Err(NotHeld), at;
      }
      if managed.runtime.epoch != latest.value.containmentEpoch {
        return Err(EpochDisagrees), at;
      }
      return Ok(latest.value), at;
    }

    // The single steps of `recover`, as the agent sees them.

    method ClearFence(a: string, managed: ManagedAgent, writes: bool) returns (ok: bool)
      requires Ready(a, managed)
      modifies fences
      ensures Ready(a, managed) && OthersKept(a)
      ensures ok <==> writes || old(fences.Get(a)).None?
      ensures View(a, managed, P.Nothing)
           == if ok then old(View(a, managed, P.Nothing)).(fence := None) else old(View(a, managed, P.Nothing))
    {
      var cleared := fences.Clear(a, writes);
      ok := cleared.Ok?;
    }

    method PutFenceBack(a: string, managed: ManagedAgent, epoch: nat, writes: bool) returns (ok: bool)
      requires Ready(a, managed) && fences.Get(a).None?
      modifies fences
      ensures Ready(a, managed) && OthersKept(a) && ok == writes
      ensures View(a, managed, P.Nothing)
           == old(View(a, managed, P.Nothing)).(fence := if writes then Some(epoch) else None)
    {
      var prepared := fences.Prepare(a, epoch, writes);
      ok := prepared.Ok?;
    }

    method AdmitIncident(a: string, managed: ManagedAgent, record: IncidentRecord, ghost at: nat, writes: bool)
      returns (ok: bool)
      requires Ready(a, managed)
      requires IsLatest(incidents.records, a, at) && incidents.records[at] == record && ProjectOne(record).Standing()
      modifies incidents
      ensures Ready(a, managed) && OthersKept(a) && ok == writes
      ensures IsLatest(incidents.records, a, at) && incidents.records[at] == if ok then AsAdmitted(record) else record
      ensures var before := old(View(a, managed, P.Nothing));
              && before.incs != []
              && View(a, managed, P.Nothing) == if ok then before.(incs := P.Admit(before.incs, |before.incs| - 1))
                else before
    {
      ok := Admit(a, record, at, writes);
    }

    method RestoreIncident(a: string, managed: ManagedAgent, record: IncidentRecord, ghost at: nat, writes: bool)
      returns (ok: bool)
      requires Ready(a, managed)
      requires IsLatest(incidents.records, a, at) && incidents.records[at] == record && record.state == Recovered
      modifies incidents
      ensures Ready(a, managed) && OthersKept(a) && ok == writes
      ensures var before := old(View(a, managed, P.Nothing));
              && before.incs != []
              && View(a, managed, P.Nothing)
                 == if ok then before.(incs := P.SetState(before.incs, |before.incs| - 1, IncidentState.Contained))
                   else before
    {
      ok := Restore(a, record, at, writes);
    }

    /** The runtime as an accepted call finds it at its activation. */
    ghost predicate Raced(managed: ManagedAgent, epoch: nat, before: seq<Op>)
      reads managed.runtime
    {
      managed.runtime.epoch == epoch + |before| && (before == [] ==> managed.runtime.state == RuntimeState.Contained)
    }

    /** The activation itself, refused exactly when other threads have been there, and the rotation of
        the capability that authorized it. */
    static method Activate(managed: ManagedAgent, epoch: nat, after: seq<Op>, ghost before: seq<Op>)
      returns (r: Result<nat, RuntimeError>)
      requires managed.runtime.Valid() && Stops(after)
      requires managed.runtime.epoch == epoch + |before|
               && (before == [] ==> managed.runtime.state == RuntimeState.Contained)
      requires managed.recoveryCapability == managed.runtime.capability
      modifies managed`recoveryCapability, managed.runtime, managed.runtime.ids
      ensures managed.runtime.Valid() && managed.recoveryCapability == managed.runtime.capability
      ensures managed.runtime.ids.next >= old(managed.runtime.ids.next)
      ensures r.Ok? <==> before == []
      ensures r.Ok? ==> r.value == epoch + 1
      ensures managed.runtime.Abs()
           == if r.Err? then old(managed.runtime.Abs())
              else RecoverRuns.Activated(old(managed.runtime.Abs()), old(managed.recoveryCapability), epoch, after)
    {
      r := managed.runtime.Recover(managed.recoveryCapability, epoch);
      if r.Ok? {
        StopsCount(managed.runtime.Abs(), after);
        managed.runtime.PerformAll(after);
        managed.recoveryCapability := managed.runtime.RotateRecoveryCapability();
      }
    }

    method ActivateManaged(a: string, managed: ManagedAgent, epoch: nat, after: seq<Op>, ghost before: seq<Op>)
      returns (r: Result<nat, RuntimeError>)
      requires Ready(a, managed) && Stops(after) && Raced(managed, epoch, before)
      modifies ids, managed`recoveryCapability, managed.runtime
      ensures Ready(a, managed) && OthersKept(a)
      ensures r.Ok? <==> before == []
      ensures r.Ok? ==> r.value == epoch + 1
      ensures var s := old(View(a, managed, P.Nothing));
              View(a, managed, P.Nothing)
              == if r.Err? then s
                 else
                   var w := RecoverRuns.Activated(World(s.live.rt, s.next), s.live.capability, epoch, after);
                   s.(live := P.Up(w.rt, w.rt.capability), next := w.next)
    {
      ProofOfRun(Apply(managed.runtime.Abs(), OpRecover(managed.recoveryCapability, epoch)), after);
      r := Activate(managed, epoch, after, before);
    }

    /** After a failed RECOVERED record. The record itself is as it was, so only the fence and the
        providers need putting back. */
    method CompensateStorage(a: string, managed: ManagedAgent, epoch: nat, fenceBack: bool)
      returns (compensated: bool, ghost recontained: bool)
      requires Ready(a, managed) && fences.Get(a).None?
      modifies fences, managed.containment`log
      ensures Ready(a, managed) && OthersKept(a)
      ensures View(a, managed, P.Nothing)
           == old(View(a, managed, P.Nothing)).(fence := if fenceBack then Some(epoch) else None)
      ensures compensated <==> fenceBack && recontained
      ensures recontained == (old(managed.containment.Sweeping(Containment)).failures == [])
      ensures managed.containment.log
              == old(managed.containment.log) + old(managed.containment.Sweeping(Containment)).log
    {
      var restored := PutFenceBack(a, managed, epoch, fenceBack);
      var failures := managed.containment.RecontainEnforcers();
      recontained := failures == [];
      compensated := restored && failures == [];
    }

    /** After a failed activation: fence, incident, providers. */
    method CompensateActivation(a: string, managed: ManagedAgent, record: IncidentRecord, ghost at: nat,
                                fenceBack: bool, rollsBack: bool)
      returns (compensated: bool, ghost recontained: bool)
      requires Ready(a, managed) && fences.Get(a).None?
      requires IsLatest(incidents.records, a, at) && incidents.records[at] == record && record.state == Recovered
      modifies fences, incidents, managed.containment`log
      ensures Ready(a, managed) && OthersKept(a)
      ensures var before := old(View(a, managed, P.Nothing));
              && before.incs != []
              && View(a, managed, P.Nothing)
                 == before.(fence := if fenceBack then Some(record.containmentEpoch) else None,
                            incs := if rollsBack then P.SetState(before.incs, |before.incs| - 1,
                                                                 IncidentState.Contained) else before.incs)
      ensures compensated <==> fenceBack && rollsBack && recontained
      ensures recontained == (old(managed.containment.Sweeping(Containment)).failures == [])
      ensures managed.containment.log
              == old(managed.containment.log) + old(managed.containment.Sweeping(Containment)).log
    {
      var fenced := PutFenceBack(a, managed, record.containmentEpoch, fenceBack);
      var restored := RestoreIncident(a, managed, record, at, rollsBack);
      var failures := managed.containment.RecontainEnforcers();
      recontained := failures == [];
      compensated := fenced && restored && failures == [];
    }

    /** The last part of `recover`: the RECOVERED record is written. */
    method Complete(a: string, managed: ManagedAgent, record: IncidentRecord, ghost at: nat, f: RecoverRuns.Faults)
      returns (r: Result<nat, ServiceError>, ghost recontained: bool, ghost out: P.Outcome)
      requires Ready(a, managed) && fences.Get(a).None? && f.Valid()
      requires IsLatest(incidents.records, a, at) && incidents.records[at] == record && record.state == Recovered
      requires Incidents(incidents.records, a) != [] && Raced(managed, record.containmentEpoch, f.before)
      modifies fences, incidents, ids, managed`recoveryCapability, managed.runtime, managed.containment`log
      ensures Ready(a, managed) && OthersKept(a)
      ensures View(a, managed, out)
           == RecoverRuns.AfterAdmission(old(View(a, managed, P.Nothing)), record.containmentEpoch,
                                         f.(recontained := recontained))
      ensures Reports(r, out) && SweptAgain(managed.containment, old(managed.containment.log), managed.containment.log,
                                            out, recontained, old(managed.runtime.View()))
    {
      recontained := false;
      var activated := ActivateManaged(a, managed, record.containmentEpoch, f.after, f.before);
      if activated.Ok? {
        return Ok(activated.value), recontained, P.RecoverReturned(activated.value);
      }
      var compensated;
      compensated, recontained := CompensateActivation(a, managed, record, at, f.fenceBack, f.rollsBack);
      return Err(RuntimeNotActivated(compensated)), recontained,
        P.ActivationFailed(f.fenceBack && f.rollsBack, recontained);
    }

    /** The middle part: the providers are released, the RECOVERED record is about to be written. */
    method AdmitAndComplete(a: string, managed: ManagedAgent, record: IncidentRecord, ghost at: nat,
                            f: RecoverRuns.Faults)
      returns (r: Result<nat, ServiceError>, ghost recontained: bool, ghost out: P.Outcome)
      requires Ready(a, managed) && fences.Get(a).None? && f.Valid()
      requires IsLatest(incidents.records, a, at) && incidents.records[at] == record && ProjectOne(record).Standing()
      requires Incidents(incidents.records, a) != [] && Raced(managed, record.containmentEpoch, f.before)
      modifies fences, incidents, ids, managed`recoveryCapability, managed.runtime, managed.containment`log
      ensures Ready(a, managed) && OthersKept(a)
      ensures View(a, managed, out)
           == RecoverRuns.AfterRelease(old(View(a, managed, P.Nothing)), record.containmentEpoch,
                                       f.(recontained := recontained))
      ensures Reports(r, out) && SweptAgain(managed.containment, old(managed.containment.log), managed.containment.log,
                                            out, recontained, old(managed.runtime.View()))
    {
      var admitted := AdmitIncident(a, managed, record, at, f.admits);
      if !admitted {
        var compensated;
        compensated, recontained := CompensateStorage(a, managed, record.containmentEpoch, f.fenceBack);
        return Err(IncidentNotAdmitted(compensated)), recontained, P.StorageFailed(f.fenceBack, recontained);
      }
      r, recontained, out := Complete(a, managed, AsAdmitted(record), at, f);
    }

    /** What other threads do before the activation. Nothing the call does until then depends on it. */
    method Race(a: string, managed: ManagedAgent, epoch: nat, before: seq<Op>)
      requires Ready(a, managed) && Stops(before)
      requires managed.runtime.state == RuntimeState.Contained && managed.runtime.epoch == epoch
      modifies ids, managed.runtime
      ensures Ready(a, managed) && OthersKept(a) && Raced(managed, epoch, before) && managed.runtime.state != Active
      ensures View(a, managed, P.Nothing) == P.Disturbed(old(View(a, managed, P.Nothing)), before)
    {
      StopsCount(managed.runtime.Abs(), before);
      managed.runtime.PerformAll(before);
    }

    /** The providers, with the fence already gone; it is put back if one of them is not released. */
    method ReleaseProviders(a: string, managed: ManagedAgent, epoch: nat, fenceBack: bool)
      returns (r: Result<(), ServiceError>, ghost out: P.Outcome)
      requires Ready(a, managed) && fences.Get(a).None?
      modifies fences, managed.containment`log
      ensures Ready(a, managed) && OthersKept(a) && out == P.ReleaseFailed(fenceBack)
      ensures var release := old(managed.containment.Sweeping(Release));
              && managed.containment.log == old(managed.containment.log) + release.log
              && r == (if release.failures == [] then Ok(()) else Err(NotReleasedRemainsContained(release.failures)))
      ensures View(a, managed, P.Nothing)
           == if r.Ok? then old(View(a, managed, P.Nothing))
              else old(View(a, managed, P.Nothing)).(fence := if fenceBack then Some(epoch) else None)
    {
      out := P.ReleaseFailed(fenceBack);
      var failures := managed.containment.ReleaseEnforcers();
      if failures != [] {
        var restored := PutFenceBack(a, managed, epoch, fenceBack);
        return Err(NotReleasedRemainsContained(failures)), out;
      }
      return Ok(()), out;
    }

    /** The fence and the providers. */
    method ClearAndRelease(a: string, managed: ManagedAgent, epoch: nat, f: RecoverRuns.Faults)
      returns (r: Result<(), ServiceError>, ghost out: P.Outcome)
      requires Ready(a, managed) && Incidents(incidents.records, a) != []
      modifies fences, managed.containment`log
      ensures Ready(a, managed) && OthersKept(a)
      ensures var released := old(managed.containment.Sweeping(Release)).failures == [];
              && (r.Ok? <==> (f.clears || old(fences.Get(a)).None?) && released)
              && (r.Ok? ==> View(a, managed, P.Nothing) == old(View(a, managed, P.Nothing)).(fence := None))
              && (r.Err? ==>
                    && View(a, managed, out)
                       == RecoverRuns.AfterChecks(old(View(a, managed, P.Nothing)), epoch, f.(released := released))
                    && Reports(Err(r.error), out)
                    && Driven(managed.containment, old(managed.containment.log), managed.containment.log, Err(r.error),
                              out, managed.runtime.View()))
      ensures r.Ok? ==>
                managed.containment.log == old(managed.containment.log) + old(managed.containment.Sweeping(Release)).log
    {
      out := P.ClearFailed;
      NothingDriven(managed.containment, managed.containment.log, managed.runtime.View());
      ReleaseDriven(managed.containment, managed.containment.log, f.fenceBack, managed.runtime.View());
      var cleared := ClearFence(a, managed, f.clears);
      if !cleared {
        return Err(FenceNotCleared), out;
      }
      r, out := ReleaseProviders(a, managed, epoch, f.fenceBack);
    }

    /** Everything after the release, which began when the calls made were `before`. */
    method RecoverReleased(a: string, managed: ManagedAgent, record: IncidentRecord, ghost at: nat,
                           w: RecoverRuns.Faults, ghost before: seq<Call>)
      returns (r: Result<nat, ServiceError>, ghost recontained: bool, ghost out: P.Outcome)
      requires Ready(a, managed) && fences.Get(a).None? && w.Valid()
      requires IsLatest(incidents.records, a, at) && incidents.records[at] == record && ProjectOne(record).Standing()
      requires Incidents(incidents.records, a) != [] && Raced(managed, record.containmentEpoch, w.before)
      requires var release := managed.containment.SweepOn(Release, |before|, managed.runtime.View());
               managed.containment.log == before + release.log && release.failures == []
      modifies fences, incidents, ids, managed`recoveryCapability, managed.runtime, managed.containment`log
      ensures Ready(a, managed) && OthersKept(a)
      ensures View(a, managed, out)
           == RecoverRuns.AfterRelease(old(View(a, managed, P.Nothing)), record.containmentEpoch,
                                       w.(recontained := recontained))
      ensures Reports(r, out) && Driven(managed.containment, before, managed.containment.log, r, out,
                                        old(managed.runtime.View()))
    {
      r, recontained, out := AdmitAndComplete(a, managed, record, at, w);
      DrivenOnward(managed.containment, before, old(managed.containment.log), managed.containment.log, r, out,
                   recontained, old(managed.runtime.View()));
    }

    /** Everything after the checks. */
    method RecoverAccepted(a: string, managed: ManagedAgent, record: IncidentRecord, ghost at: nat,
                           w: RecoverRuns.Faults)
      returns (r: Result<nat, ServiceError>, ghost f: RecoverRuns.Faults, ghost out: P.Outcome)
      requires Ready(a, managed) && w.Valid()
      requires IsLatest(incidents.records, a, at) && incidents.records[at] == record && ProjectOne(record).Standing()
      requires Raced(managed, record.containmentEpoch, w.before)
      modifies fences, incidents, ids, managed`recoveryCapability, managed.runtime, managed.containment`log
      ensures Ready(a, managed) && OthersKept(a)
      ensures f == w.(released := old(managed.containment.Sweeping(Release)).failures == [],
                      recontained := f.recontained)
      ensures old(Incidents(incidents.records, a)) != []
      ensures View(a, managed, out) == RecoverRuns.AfterChecks(old(View(a, managed, P.Nothing)),
                                                               record.containmentEpoch, f)
      ensures Reports(r, out) && Driven(managed.containment, old(managed.containment.log), managed.containment.log, r,
                                        out, old(managed.runtime.View()))
    {
      LatestView(incidents.records, a, at);
      ghost var s := View(a, managed, P.Nothing);
      f := w.(released := managed.containment.Sweeping(Release).failures == []);
      var released;
      released, out := ClearAndRelease(a, managed, record.containmentEpoch, w);
      if released.Err? {
        return Err(released.error), f, out;
      }
      assert View(a, managed, P.Nothing) == s.(fence := None);
      ghost var recontained;
      r, recontained, out := RecoverReleased(a, managed, record, at, w, old(managed.containment.log));
      RecoverRuns.ChecksPassed(s, record.containmentEpoch, w, recontained);
      f := f.(recontained := recontained);
    }

    /** The runtime as other threads leave it before the activation. */
    static ghost function Stopped(managed: ManagedAgent, before: seq<Op>): Rt
      reads managed.runtime, managed.runtime.ids
    {
      ApplyAll(managed.runtime.Abs(), before).rt
    }

    /** Everything after the checks, with what other threads do to the runtime meanwhile. */
    method RecoverChecked(a: string, managed: ManagedAgent, auth: P.Auth, record: IncidentRecord, ghost at: nat,
                          w: RecoverRuns.Faults)
      returns (r: Result<nat, ServiceError>, ghost f: RecoverRuns.Faults, ghost out: P.Outcome)
      requires Ready(a, managed) && w.Valid() && P.Admissible(View(a, managed, P.Nothing), auth)
      requires IsLatest(incidents.records, a, at) && incidents.records[at] == record
      requires record.containmentEpoch == auth.epoch && ProjectOne(record).Standing()
      modifies fences, incidents, ids, managed`recoveryCapability, managed.runtime, managed.containment`log
      ensures Ready(a, managed) && OthersKept(a)
      ensures var c := managed.containment; var rt := old(Stopped(managed, w.before));
              && f == w.(released := c.SweepOn(Release, |old(c.log)|, rt).failures == [], recontained := f.recontained)
              && !rt.CanExecute() && Driven(c, old(c.log), c.log, r, out, rt)
      ensures View(a, managed, out) == RecoverRuns.Recovered(old(View(a, managed, P.Nothing)), auth, f)
      ensures Reports(r, out)
    {
      Race(a, managed, auth.epoch, w.before);
      r, f, out := RecoverAccepted(a, managed, record, at, w);
    }

    method RecoverManaged(a: string, managed: ManagedAgent, auth: P.Auth, w: RecoverRuns.Faults)
      returns (r: Result<nat, ServiceError>, ghost f: RecoverRuns.Faults, ghost out: P.Outcome)
      requires Ready(a, managed) && w.Valid()
      modifies fences, incidents, ids, managed`recoveryCapability, managed.runtime, managed.containment`log
      ensures Ready(a, managed) && OthersKept(a)
      ensures f == w.(released := f.released, recontained := f.recontained)
      ensures var c := managed.containment; var rt := old(Stopped(managed, w.before));
              && (P.Admissible(old(View(a, managed, P.Nothing)), auth) ==>
                    f.released == (c.SweepOn(Release, |old(c.log)|, rt).failures == []) && !rt.CanExecute())
              && Driven(c, old(c.log), c.log, r, out, rt)
      ensures View(a, managed, out) == RecoverRuns.Recovered(old(View(a, managed, P.Nothing)), auth, f)
      ensures Reports(r, out)
    {
      var checked;
      ghost var at;
      checked, at := CheckAuthorization(a, managed, auth);
      if checked.Err? {
        RejectedDriven(managed.containment, managed.containment.log, checked.error, Stopped(managed, w.before));
        return Err(checked.error), w, P.RecoverRejected;
      }
      r, f, out := RecoverChecked(a, managed, auth, checked.value, at, w);
    }

    /** `recover` for a registered agent. */
    method RecoverRegistered(a: string, managed: ManagedAgent, auth: P.Auth, w: RecoverRuns.Faults)
      returns (r: Result<nat, ServiceError>, ghost f: RecoverRuns.Faults, ghost out: P.Outcome)
      requires InOrder() && a in agents && agents[a] == managed && w.Valid()
      modifies fences, incidents, ids, managed`recoveryCapability, managed.runtime, managed.containment`log
      ensures InOrder() && OthersUntouched(a)
      ensures f == w.(released := f.released, recontained := f.recontained)
      ensures var c := managed.containment; var rt := old(Stopped(managed, w.before));
              && (P.Admissible(old(Abs(a, P.Nothing)), auth) ==>
                    f.released == (c.SweepOn(Release, |old(c.log)|, rt).failures == []) && !rt.CanExecute())
              && Driven(c, old(c.log), c.log, r, out, rt)
      ensures Abs(a, out) == RecoverRuns.Recovered(old(Abs(a, P.Nothing)), auth, f)
      ensures Reports(r, out)
    {
      r, f, out := RecoverManaged(a, managed, auth, w);
      OneAgentMoved(a);
    }

    /** The same, as a run of the protocol. */
    method RecoverRun(a: string, managed: ManagedAgent, auth: P.Auth, w: RecoverRuns.Faults)
      returns (r: Result<nat, ServiceError>, ghost f: RecoverRuns.Faults, ghost out: P.Outcome)
      requires Valid() && a in agents && agents[a] == managed && w.Valid()
      modifies fences, incidents, ids, managed`recoveryCapability, managed.runtime, managed.containment`log
      ensures Valid() && OthersUntouched(a)
      ensures f == w.(released := f.released, recontained := f.recontained)
      ensures var c := managed.containment; var rt := old(Stopped(managed, w.before));
              && (P.Admissible(old(Abs(a, P.Nothing)), auth) ==>
                    f.released == (c.SweepOn(Release, |old(c.log)|, rt).failures == []) && !rt.CanExecute())
              && Driven(c, old(c.log), c.log, r, out, rt)
      ensures Abs(a, out) == P.Run(old(Abs(a, P.Nothing)), RecoverRuns.RecoverActs(old(Abs(a, P.Nothing)), auth, f))
      ensures Reports(r, out)
      ensures RecoverRuns.RecoveryLeaves(old(Abs(a, P.Nothing)), auth, f, Abs(a, out))
      ensures RecoveryAnswers(managed.containment, r, old(Abs(a, P.Nothing)), auth, f, |old(managed.containment.log)|,
                              old(Stopped(managed, w.before)))
    {
      ghost var s := Abs(a, P.Nothing);
      assert ProtocolSafety.Safe(s);
      ghost var k, rt := |managed.containment.log|, Stopped(managed, w.before);
      r, f, out := RecoverRegistered(a, managed, auth, w);
      RecoverRuns.RecoverResult(s, auth, f);
      RecoverRuns.RecoverLeaves(s, auth, f);
      AnswersFollow(managed.containment, r, s, auth, f, Abs(a, out), k, rt);
      Ran(a, RecoverRuns.RecoverActs(s, auth, f), out);
    }

    /** `recover` as a run of the protocol. `w` says how the devices answer and what other threads do to
        the runtime; what the providers made of the call is `f.released` and `f.recontained`. */
    method Recover(a: string, auth: P.Auth, w: RecoverRuns.Faults)
      returns (r: Result<nat, ServiceError>, ghost f: RecoverRuns.Faults, ghost out: P.Outcome)
      requires Valid() && w.Valid()
      modifies incidents, fences, ids
      // Of the table entry only the capability, so the issued identity stays as it is.
      modifies Entry(a)`recoveryCapability, set m | m in Entry(a) :: m.runtime, set m | m in Entry(a) :: m.containment
      ensures Valid() && OthersUntouched(a) && agents == old(agents)
      ensures a !in agents ==> r == Err(UnknownAgent) && Abs(a, P.Nothing) == old(Abs(a, P.Nothing))
      ensures f == w.(released := f.released, recontained := f.recontained)
      ensures a in agents ==>
                var c := agents[a].containment; var rt := old(Stopped(agents[a], w.before));
                && (P.Admissible(old(Abs(a, P.Nothing)), auth) ==>
                      f.released == (c.SweepOn(Release, |old(c.log)|, rt).failures == []) && !rt.CanExecute())
                // The calls the providers got, and what they decided: see `ReturnMeansReleased` and
                // `CompensatedMeansReapplied`.
                && Driven(c, old(c.log), c.log, r, out, rt)
                && Abs(a, out) == P.Run(old(Abs(a, P.Nothing)),
                                        RecoverRuns.RecoverActs(old(Abs(a, P.Nothing)), auth, f))
                && Reports(r, out)
                // Which calls return, what each leaves, and what its caller is told.
                && RecoverRuns.RecoveryLeaves(old(Abs(a, P.Nothing)), auth, f, Abs(a, out))
                && RecoveryAnswers(c, r, old(Abs(a, P.Nothing)), auth, f, |old(c.log)|, rt)
    {
      if a !in agents {
        return Err(UnknownAgent), w, P.RecoverRejected;
      }
      r, f, out := RecoverRun(a, agents[a], auth, w);
    }

    // ----- recovery authorizations -----

    /** Fence, latest incident and runtime of a registered agent hold it at one epoch. */
    ghost predicate HeldAt(a: string, epoch: nat)
      reads this, incidents, fences, Objects()
    {
      var incs := Incidents(incidents.records, a);
      && a in agents && agents[a].runtime.state == RuntimeState.Contained && agents[a].runtime.epoch == epoch
      && a in fences.records && fences.records[a] == epoch
      && incs != [] && incs[|incs| - 1].epoch == epoch
      && incs[|incs| - 1].state in {IncidentState.Contained, ProofDegraded}
    }

    /** The agent is durably and actually contained, at one epoch. */
    method CheckHeld(a: string, managed: ManagedAgent) returns (r: Result<(), ServiceError>)
      requires Ready(a, managed)
      ensures r.Ok? <==> ProtocolTheorems.Issue(View(a, managed, P.Nothing), true).Some?
    {
      var latest, at := Latest(a);
      var fence := fences.Get(a);
      if latest.None? || latest.value.state !in {IncidentState.Contained, ProofDegraded} {
        return Err(NotRecoverable);
      }
      if fence.None? {
        return Err(FenceMissing);
      }
      if fence.value != latest.value.containmentEpoch {
        return Err(EpochDisagrees);
      }
      if managed.runtime.state != RuntimeState.Contained {
        return Err(NotHeld);
      }
      if managed.runtime.epoch != latest.value.containmentEpoch {
        return Err(EpochDisagrees);
      }
      return Ok(());
    }

    /** The providers have been swept once if the agent is held, and not at all otherwise. */
    static predicate Reapplied(c: ContainmentController, held: bool, before: seq<Call>, after: seq<Call>, rt: Rt) {
      after == before + if held then c.SweepOn(Containment, |before|, rt).log else []
    }

    /** Then every provider has been asked, the failures are the declined calls, and there are none exactly when
        each is applied and verified. */
    static lemma ReappliedAsks(c: ContainmentController, before: seq<Call>, after: seq<Call>, rt: Rt)
      requires !rt.CanExecute() && Reapplied(c, true, before, after, rt)
      ensures var failures, calls := c.SweepOn(Containment, |before|, rt).failures, after[|before|..];
              && AsksEach(Containment, c.providers, |c.providers|, Swept(failures, calls))
              && (failures == [] <==> Confirms(Containment, |c.providers|, calls))
    {
      SweepAsks(Containment, c.providers, |c.providers|, c.replies, |before|, rt);
      SweepConfirms(Containment, c.providers, c.replies, |before|, rt);
      assert after[|before|..] == c.SweepOn(Containment, |before|, rt).log;
    }

    method ReconcileManaged(a: string, managed: ManagedAgent) returns (r: Result<seq<Failure>, ServiceError>)
      requires Ready(a, managed)
      modifies managed.containment`log
      ensures r.Ok? <==> ProtocolTheorems.Issue(View(a, managed, P.Nothing), true).Some?
      ensures r.Ok? ==> r.value == old(managed.containment.Sweeping(Containment)).failures
      ensures Reapplied(managed.containment, r.Ok?, old(managed.containment.log), managed.containment.log,
                        managed.runtime.View())
    {
      var held := CheckHeld(a, managed);
      if held.Err? {
        return Err(held.error);
      }
      var failures := managed.containment.RecontainEnforcers();
      return Ok(failures);
    }

    /** Re-apply and verify every provider of an agent that is contained; nothing else moves. */
    method ReconcileContainment(a: string) returns (r: Result<seq<Failure>, ServiceError>)
      requires Valid()
      modifies if a in agents then {agents[a].containment} else {}
      ensures Valid() && OthersUntouched(a) && (forall b :: Abs(b, P.Nothing) == old(Abs(b, P.Nothing)))
      ensures r.Ok? <==> ProtocolTheorems.Issue(Abs(a, P.Nothing), true).Some?
      ensures r.Ok? <==> exists epoch :: HeldAt(a, epoch)
      ensures r.Ok? ==> a in agents && r.value == old(agents[a].containment.Sweeping(Containment)).failures
      // Accepted, every provider has been called; an empty list means each is applied and verified.
      ensures a in agents ==>
                var c := agents[a].containment;
                && Reapplied(c, r.Ok?, old(c.log), c.log, agents[a].runtime.View())
                && (r.Ok? ==> agents[a].runtime.state == RuntimeState.Contained
                              && (r.value == [] <==> Confirms(Containment, |c.providers|, c.log[|old(c.log)|..]))
                              && AsksEach(Containment, c.providers, |c.providers|,
                                          Swept(r.value, c.log[|old(c.log)|..])))
    {
      if a !in agents {
        return Err(UnknownAgent);
      }
      var c := agents[a].containment;
      r := ReconcileManaged(a, agents[a]);
      NothingMoved(a);
      assert r.Ok? <==> HeldAt(a, agents[a].runtime.epoch);
      if r.Ok? {
        ReappliedAsks(c, old(c.log), c.log, agents[a].runtime.View());
      }
    }

    method IssueManaged(a: string, managed: ManagedAgent) returns (r: Result<P.Auth, ServiceError>)
      requires Ready(a, managed)
      modifies managed.containment`log
      ensures ProtocolTheorems.Issue(View(a, managed, P.Nothing),
                                     old(managed.containment.Sweeping(Containment)).failures == [])
           == if r.Ok? then Some(r.value) else None
      ensures Reapplied(managed.containment, ProtocolTheorems.Issue(View(a, managed, P.Nothing), true).Some?,
                        old(managed.containment.log), managed.containment.log, managed.runtime.View())
    {
      var latest, at := Latest(a);
      if latest.None? || latest.value.state !in {IncidentState.Contained, ProofDegraded} {
        return Err(NotRecoverable);
      }
      if managed.runtime.state != RuntimeState.Contained {
        return Err(NotHeld);
      }
      if managed.runtime.epoch != latest.value.containmentEpoch {
        return Err(EpochDisagrees);
      }
      var reconciled := ReconcileManaged(a, managed);
      if reconciled.Err? {
        return Err(reconciled.error);
      }
      if reconciled.value != [] {
        return Err(Unreconciled(reconciled.value));
      }
      return Ok(P.Auth(a, latest.value.containmentEpoch, managed.recoveryCapability));
    }

    /** An authorization is issued exactly when the protocol issues one, and every provider answered. */
    method IssueRecoveryAuthorization(a: string) returns (r: Result<P.Auth, ServiceError>)
      requires Valid()
      modifies if a in agents then {agents[a].containment} else {}
      ensures Valid() && OthersUntouched(a) && (forall b :: Abs(b, P.Nothing) == old(Abs(b, P.Nothing)))
      ensures var reconciled := a in agents && old(agents[a].containment.Sweeping(Containment)).failures == [];
              ProtocolTheorems.Issue(Abs(a, P.Nothing), reconciled) == if r.Ok? then Some(r.value) else None
      // Every provider of a held agent has been called, and for an authorization each has been applied
      // and verified.
      ensures a in agents ==>
                var c := agents[a].containment;
                && Reapplied(c, ProtocolTheorems.Issue(Abs(a, P.Nothing), true).Some?, old(c.log), c.log,
                             agents[a].runtime.View())
                && (r.Ok? <==> (exists epoch :: HeldAt(a, epoch))
                               && Confirms(Containment, |c.providers|, c.log[|old(c.log)|..]))
                && (r.Ok? ==> r.value == P.Auth(a, agents[a].runtime.epoch, agents[a].recoveryCapability))
                && ((exists epoch :: HeldAt(a, epoch)) ==>
                      AsksEach(Containment, c.providers, |c.providers|,
                               Swept(old(c.Sweeping(Containment)).failures, c.log[|old(c.log)|..])))
    {
      if a !in agents {
        return Err(UnknownAgent);
      }
      var c := agents[a].containment;
      r := IssueManaged(a, agents[a]);
      NothingMoved(a);
      if HeldAt(a, agents[a].runtime.epoch) {
        ReappliedAsks(c, old(c.log), c.log, agents[a].runtime.View());
      }
    }

    // ----- register -----

    /** What the protocol sees while `a` is being registered. */
    ghost function Registering(a: string, pc: P.Pc, out: P.Outcome): P.Sys
      reads incidents, fences, ids
    {
      P.Sys(a, fences.Get(a), Incidents(incidents.records, a), P.Down, pc, ids.next, out)
    }

    /** An incident for a fence that has none of its own. */
    method RecordFence(a: string, fence: nat, reason: string, now: real, writes: bool, ghost rt: Rt,
                       ghost supplied: bool)
      returns (r: Result<(), ServiceError>)
      requires Registries() && a != "" && Later(incidents.records, now)
      modifies incidents
      ensures Registries() && SameForOthers(old(incidents.records), incidents.records, a)
      ensures P.RegisterRecord(old(Registering(a, P.RegStart(rt, supplied, Some(fence)), P.Nothing)), writes, rt,
                               supplied, fence)
           == if r.Ok? then Registering(a, P.RegAdmit(rt, supplied, Some(fence)), P.Nothing)
             else Registering(a, P.Idle, P.RegisterRaised)
    {
      var ok := Record(a, fence, fence, reason, now, writes);
      return if ok then Ok(()) else Err(StorageUnavailable);
    }

    /** Make the latest incident agree with the fence. */
    method ReconstructIncident(a: string, fence: Option<nat>, now: real, writes: bool, ghost rt: Rt,
                               ghost supplied: bool)
      returns (r: Result<(), ServiceError>)
      requires Registries() && a != "" && Later(incidents.records, now) && fence == fences.Get(a)
      modifies incidents
      ensures Registries() && SameForOthers(old(incidents.records), incidents.records, a)
      ensures P.RegisterStart(old(Registering(a, P.RegStart(rt, supplied, fence), P.Nothing)), writes, rt, supplied,
                              fence)
           == if r.Ok? then Registering(a, P.RegAdmit(rt, supplied, fence), P.Nothing)
             else Registering(a, P.Idle, P.RegisterRaised)
    {
      var latest, at := Latest(a);
      if fence.Some? && latest.None? {
        r := RecordFence(a, fence.value, "incident reconstructed from durable containment fence", now, writes, rt,
                         supplied);
        return;
      }
      if fence.Some? && latest.value.state == Recovered {
        if latest.value.containmentEpoch == fence.value {
          var ok := Restore(a, latest.value, at, writes);
          return if ok then Ok(()) else Err(StorageUnavailable);
        } else if latest.value.recoveryEpoch.Some? && fence.value > latest.value.recoveryEpoch.value {
          r := RecordFence(a, fence.value, "incident reconstructed after a newer fence", now, writes, rt, supplied);
          return;
        } else {
          return Err(FenceConflict);
        }
      }
      return Ok(());
    }

    /** A durable epoch admits a fresh runtime by holding it there, and a supplied one only if it is
        not executable and, when contained, stands at that epoch. */
    method HoldAt(runtime: Runtime, supplied: bool, epoch: nat) returns (r: Result<(), ServiceError>)
      requires runtime.Valid() && runtime.ids == ids
      modifies runtime, ids
      ensures runtime.Valid() && ids.next >= old(ids.next)
      ensures runtime.Abs() == if supplied then old(runtime.Abs())
              else Apply(old(runtime.Abs()), OpRestoreContained(epoch))
      ensures var rt := old(runtime.View());
              r.Ok? <==> if supplied then !rt.CanExecute() && (rt.state == RuntimeState.Contained ==> rt.epoch == epoch)
                         else rt.RestoreContained(epoch, old(ids.next)).Ok?
    {
      if !supplied {
        var restored := runtime.RestoreContained(epoch);
        return if restored.Ok? then Ok(()) else Err(CannotRestoreRuntime(restored.error));
      }
      if runtime.state == Active {
        return Err(StillExecutable);
      }
      if runtime.state == RuntimeState.Contained && runtime.epoch != epoch {
        return Err(EpochDisagrees);
      }
      return Ok(());
    }

    /** Only a supplied runtime aborts a recovery, and only an incident holds a runtime. */
    ghost predicate Settles(a: string, supplied: bool, admission: Admission)
      reads incidents
    {
      && (admission.ToPrepare? ==> supplied)
      && (admission.ToContained? ==> Incidents(incidents.records, a) != [])
    }

    /** Without a fence, and with the latest incident RECOVERED: the runtime supplied settles whether
        the recovery happened. */
    method SettleRecovery(a: string, runtime: Runtime, supplied: bool, record: IncidentRecord, ghost at: nat,
                          writes: bool)
      returns (r: Result<Admission, ServiceError>)
      requires Registries() && fences.Get(a).None?
      requires IsLatest(incidents.records, a, at) && incidents.records[at] == record && record.state == Recovered
      modifies incidents
      ensures Registries() && SameForOthers(old(incidents.records), incidents.records, a)
      ensures r.Ok? ==> Settles(a, supplied, r.value)
      ensures P.RegisterAdmit(old(Registering(a, P.Idle, P.Nothing)), writes, runtime.View(), supplied, None)
           == if r.Ok? then Registering(a, r.value.Next(runtime.View(), supplied), P.Nothing)
              else Registering(a, P.Idle, P.RegisterRaised)
    {
      LatestView(incidents.records, a, at);
      if record.recoveryEpoch.None? {
        return Err(MissingRecoveryEpoch);
      }
      if !supplied {
        return Err(RecoveryUnsettled);
      }
      if runtime.state == RuntimeState.Contained && runtime.epoch == record.containmentEpoch {
        var ok := Restore(a, record, at, writes);
        return if ok then Ok(ToPrepare(record.containmentEpoch)) else Err(StorageUnavailable);
      }
      if runtime.state != Active || runtime.epoch != record.recoveryEpoch.value {
        return Err(RecoveryUnsettled);
      }
      return Ok(ToInstall);
    }

    /** What the latest incident makes of the runtime, up to the first write. */
    method ConsultIncident(a: string, runtime: Runtime, supplied: bool, fence: Option<nat>, writes: bool)
      returns (r: Result<Admission, ServiceError>)
      requires Registries() && a != "" && fence == fences.Get(a)
      modifies incidents, fences
      ensures Registries() && SameForOthers(old(incidents.records), incidents.records, a)
      ensures forall b :: b != a ==> fences.Get(b) == old(fences.Get(b))
      ensures r.Ok? ==> Settles(a, supplied, r.value)
      ensures P.RegisterAdmit(old(Registering(a, P.Idle, P.Nothing)), writes, runtime.View(), supplied, fence)
           == if r.Ok? then Registering(a, r.value.Next(runtime.View(), supplied), P.Nothing)
              else Registering(a, P.Idle, P.RegisterRaised)
    {
      var latest, at := Latest(a);
      if fence.None? && latest.Some? && latest.value.state == Recovered {
        r := SettleRecovery(a, runtime, supplied, latest.value, at, writes);
      } else if latest.Some? && latest.value.state in {IncidentState.Contained, ProofDegraded} {
        if fence.None? {
          var prepared := fences.Prepare(a, latest.value.containmentEpoch, writes);
          return if prepared.Ok? then Ok(ToContained) else Err(StorageUnavailable);
        }
        return Ok(ToContained);
      } else {
        return Ok(ToInstall);
      }
    }

    /** The fence, then the incident. */
    method AdmitRuntime(a: string, runtime: Runtime, supplied: bool, fence: Option<nat>, writes: bool)
      returns (r: Result<Admission, ServiceError>)
      requires Registries() && a != "" && fence == fences.Get(a) && runtime.Valid() && runtime.ids == ids
      requires !supplied ==> runtime.state == Active
      modifies incidents, fences, runtime, ids
      ensures Registries() && OthersKept(a) && runtime.Valid()
      ensures r.Ok? ==> Settles(a, supplied, r.value)
      ensures P.RegisterFenced(old(Registering(a, P.RegAdmit(runtime.View(), supplied, fence), P.Nothing)), writes,
                               old(runtime.View()), supplied, fence)
           == if r.Ok? then Registering(a, r.value.Next(runtime.View(), supplied), P.Nothing)
              else Registering(a, P.Idle, P.RegisterRaised)
    {
      if fence.Some? {
        var held := HoldAt(runtime, supplied, fence.value);
        if held.Err? {
          return Err(held.error);
        }
      }
      r := ConsultIncident(a, runtime, supplied, fence, writes);
    }

    /** The incident that holds the agent admits the runtime only at its own epoch. */
    method SettleHeld(a: string, runtime: Runtime, supplied: bool) returns (r: Result<(), ServiceError>)
      requires Registries() && a != "" && runtime.Valid() && runtime.ids == ids && Incidents(incidents.records, a) != []
      modifies runtime, ids
      ensures runtime.Valid() && ids.next >= old(ids.next)
      ensures P.RegisterContained(old(Registering(a, P.RegContained(runtime.View(), supplied), P.Nothing)),
                                  old(runtime.View()), supplied)
           == if r.Ok? then Registering(a, P.RegInstall(runtime.View(), supplied), P.Nothing)
              else Registering(a, P.Idle, P.RegisterRaised)
    {
      var latest, at := Latest(a);
      r := HoldAt(runtime, supplied, latest.value.containmentEpoch);
    }

    /** The fence after an aborted recovery, or the runtime against the incident. */
    method Settle(a: string, runtime: Runtime, supplied: bool, admission: Admission, writes: bool)
      returns (r: Result<(), ServiceError>)
      requires Registries() && a != "" && runtime.Valid() && runtime.ids == ids && !admission.ToInstall?
      requires Settles(a, supplied, admission)
      modifies fences, runtime, ids
      ensures Registries() && runtime.Valid() && ids.next >= old(ids.next)
      ensures forall b :: b != a ==> fences.Get(b) == old(fences.Get(b))
      ensures P.StepRegister(old(Registering(a, admission.Next(runtime.View(), supplied), P.Nothing)), writes)
           == if r.Ok? then Registering(a, P.RegInstall(runtime.View(), supplied), P.Nothing)
              else Registering(a, P.Idle, P.RegisterRaised)
    {
      match admission {
        case ToPrepare(epoch) =>
          var prepared := fences.Prepare(a, epoch, writes);
          return if prepared.Ok? then Ok(()) else Err(StorageUnavailable);
        case ToContained =>
          r := SettleHeld(a, runtime, supplied);
      }
    }

    /** Registration between its call and its installation. */
    method Prepare(a: string, runtime: Runtime, supplied: bool, now: real, starts: bool, admits: bool, settles: bool)
      returns (r: Result<(), ServiceError>)
      requires Registries() && a != "" && Later(incidents.records, now) && runtime.Valid() && runtime.ids == ids
      requires !supplied ==> runtime.state == Active
      modifies incidents, fences, runtime, ids
      ensures Registries() && OthersKept(a) && runtime.Valid()
      ensures RegisterRuns.Prepared(old(Registering(a, P.RegStart(runtime.View(), supplied, fences.Get(a)), P.Nothing)),
                                    old(runtime.View()), supplied, starts, admits, settles)
           == if r.Ok? then Registering(a, P.RegInstall(runtime.View(), supplied), P.Nothing)
              else Registering(a, P.Idle, P.RegisterRaised)
    {
      var fence := fences.Get(a);
      var started := ReconstructIncident(a, fence, now, starts, runtime.View(), supplied);
      if started.Err? {
        return started;
      }
      var admission := AdmitRuntime(a, runtime, supplied, fence, admits);
      if admission.Err? {
        return Err(admission.error);
      }
      if admission.value.ToInstall? {
        return Ok(());
      }
      r := Settle(a, runtime, supplied, admission.value, settles);
    }

    ghost function Supplied(containment: ContainmentController?): Option<Rt>
      reads if containment != null then {containment.runtime} else {}
    {
      if containment == null then None else Some(containment.runtime.View())
    }

    /** The new table entry, whose capability is newly drawn. */
    method Install(a: string, runtime: Runtime, containment: ContainmentController, policy: PolicyEngine,
                   ghost supplied: bool)
      returns (managed: ManagedAgent)
      requires Registries() && a != ""
      requires runtime.Valid() && runtime.ids == ids && runtime.agentId == a && containment.runtime == runtime
      modifies runtime, ids
      ensures fresh(managed) && Ready(a, managed) && ids.next >= old(ids.next)
      ensures managed.runtime == runtime && managed.containment == containment && managed.policy == policy
      ensures managed.identityDigest.None? && managed.identityPid.None?
      ensures View(a, managed, P.RegisterReturned)
           == RegisterRuns.Installed(old(Registering(a, P.RegInstall(runtime.View(), supplied), P.Nothing)))
    {
      var capability := runtime.RotateRecoveryCapability();
      managed := new ManagedAgent(runtime, containment, policy, capability);
    }

    /** Registration of a runtime of the right agent, up to its entry into the table. */
    method Enrol(a: string, runtime: Runtime, containment: ContainmentController, policy: PolicyEngine, supplied: bool,
                 now: real, starts: bool, admits: bool, settles: bool)
      returns (r: Result<ManagedAgent, ServiceError>)
      requires Registries() && a != "" && Later(incidents.records, now)
      requires runtime.Valid() && runtime.ids == ids && runtime.agentId == a && containment.runtime == runtime
      requires !supplied ==> runtime.state == Active
      modifies incidents, fences, ids, runtime
      ensures Registries() && OthersKept(a)
      ensures r.Ok? ==>
                && fresh(r.value) && Ready(a, r.value)
                && r.value.runtime == runtime && r.value.containment == containment && r.value.policy == policy
                && r.value.identityDigest.None? && r.value.identityPid.None?
      ensures RegisterRuns.Finished(RegisterRuns.Prepared(
                old(Registering(a, P.RegStart(runtime.View(), supplied, fences.Get(a)), P.Nothing)),
                old(runtime.View()), supplied, starts, admits, settles))
           == if r.Ok? then View(a, r.value, P.RegisterReturned) else Registering(a, P.Idle, P.RegisterRaised)
    {
      var prepared := Prepare(a, runtime, supplied, now, starts, admits, settles);
      if prepared.Err? {
        return Err(prepared.error);
      }
      var managed := Install(a, runtime, containment, policy, supplied);
      return Ok(managed);
    }

    /** Without a supplied controller the runtime is new. */
    method EnrolFresh(a: string, policy: PolicyEngine, now: real, starts: bool, admits: bool, settles: bool)
      returns (r: Result<ManagedAgent, ServiceError>)
      requires Registries() && a != "" && Later(incidents.records, now)
      modifies incidents, fences, ids
      ensures Registries() && OthersKept(a)
      ensures r.Ok? ==> && fresh(r.value) && Ready(a, r.value) && fresh(r.value.runtime) && fresh(r.value.containment)
                        && r.value.policy == policy && r.value.identityDigest.None? && r.value.identityPid.None?
      ensures RegisterRuns.Registered(old(Registering(a, P.Idle, P.Nothing)), None, starts, admits, settles)
           == if r.Ok? then View(a, r.value, P.RegisterReturned) else Registering(a, P.Idle, P.RegisterRaised)
    {
      var runtime := new Runtime(a, ids);
      var controller := new ContainmentController(runtime, [], [], {});
      assert Registering(a, P.RegStart(runtime.View(), false, fences.Get(a)), P.Nothing)
          == P.StepRegisterCall(old(Registering(a, P.Idle, P.Nothing)), None);
      r := Enrol(a, runtime, controller, policy, false, now, starts, admits, settles);
    }

    /** An agent that is not in the table enters it, or is refused. */
    method Enter(a: string, containment: ContainmentController?, policy: PolicyEngine, now: real,
                 starts: bool, admits: bool, settles: bool)
      returns (r: Result<Runtime, ServiceError>)
      requires InOrder() && a != "" && a !in agents && Later(incidents.records, now)
      requires containment != null ==>
                 containment.runtime.ids == ids && containment.runtime.Valid() && containment.runtime.agentId == a
      modifies `agents, incidents, fences, ids, if containment != null then {containment.runtime} else {}
      ensures InOrder() && OthersUntouched(a)
      ensures r.Ok? ==> && a in agents && agents[a].runtime == r.value && agents[a].policy == policy
                        && agents[a].identityDigest.None? && agents[a].identityPid.None?
      // The table gains a new entry, over new objects or the ones supplied, or is as it was.
      ensures r.Ok? ==> && fresh(agents[a]) && agents == old(agents)[a := agents[a]]
                        && if containment == null then fresh(agents[a].runtime) && fresh(agents[a].containment)
                           else agents[a].containment == containment
      ensures r.Err? ==> agents == old(agents)
      ensures Abs(a, if r.Ok? then P.RegisterReturned else P.RegisterRaised)
           == RegisterRuns.Registered(old(Registering(a, P.Idle, P.Nothing)), old(Supplied(containment)), starts,
                                      admits, settles)
    {
      var enrolled;
      if containment == null {
        enrolled := EnrolFresh(a, policy, now, starts, admits, settles);
      } else {
        enrolled := Enrol(a, containment.runtime, containment, policy, true, now, starts, admits, settles);
      }
      if enrolled.Ok? {
        agents := agents[a := enrolled.value];
      }
      OneAgentEntered(a);
      return if enrolled.Ok? then Ok(enrolled.value.runtime) else Err(enrolled.error);
    }

    /** `register` as a run of the protocol. The flags say how the devices answer the writes it
        makes. */
    method Register(a: string, containment: ContainmentController?, policy: PolicyEngine, now: real,
                    starts: bool, admits: bool, settles: bool)
      returns (r: Result<Runtime, ServiceError>)
      requires Valid() && Later(incidents.records, now)
      requires containment != null ==> containment.runtime.ids == ids && containment.runtime.Valid()
      modifies `agents, incidents, fences, ids, if containment != null then {containment.runtime} else {}
      ensures Valid() && OthersUntouched(a)
      ensures r.Ok? ==> && a in agents && agents[a].runtime == r.value && agents[a].policy == policy
                        && agents[a].identityDigest.None? && agents[a].identityPid.None?
      // The table gains a new entry, over new objects or the ones supplied, or is as it was.
      ensures r.Ok? ==> && fresh(agents[a]) && agents == old(agents)[a := agents[a]]
                        && if containment == null then fresh(agents[a].runtime) && fresh(agents[a].containment)
                           else agents[a].containment == containment
      ensures r.Err? ==> agents == old(agents)
      ensures Abs(a, if r.Ok? then P.RegisterReturned else P.RegisterRaised)
           == P.Run(old(Abs(a, P.Nothing)),
                    old(RegisterRuns.RegisterActs(Supplied(containment), starts, admits, settles)))
      // Which calls return, and what each leaves.
      ensures if a in old(agents) then r == Err(AlreadyRegistered) && Abs(a, P.Nothing) == old(Abs(a, P.Nothing))
              else if containment != null && containment.runtime.agentId != a then
                r == Err(AgentMismatch) && Abs(a, P.Nothing) == old(Abs(a, P.Nothing))
              else if a == "" then r == Err(EmptyAgent) && Abs(a, P.Nothing) == old(Abs(a, P.Nothing))
              else ProtocolRestart.RegistrationLeaves(old(Abs(a, P.Nothing)), old(Supplied(containment)), starts,
                                                      admits, settles, r.Ok?, Abs(a, P.Nothing))
    {
      RegisterRuns.RegisterResult(Abs(a, P.Nothing), Supplied(containment), starts, admits, settles);
      if a in agents {
        return Err(AlreadyRegistered);
      }
      if containment != null && containment.runtime.agentId != a {
        return Err(AgentMismatch);
      }
      if a == "" {
        return Err(EmptyAgent);
      }
      ghost var acts := RegisterRuns.RegisterActs(Supplied(containment), starts, admits, settles);
      assert ProtocolSafety.Safe(Abs(a, P.Nothing));
      ProtocolRestart.RegistrationIff(Abs(a, P.Nothing), Supplied(containment), starts, admits, settles);
      r := Enter(a, containment, policy, now, starts, admits, settles);
      ghost var out := if r.Ok? then P.RegisterReturned else P.RegisterRaised;
      Ran(a, acts, out);
    }

    method Unregister(a: string)
      requires Valid()
      modifies `agents
      ensures Valid() && agents == old(agents) - {a}
      ensures Abs(a, P.Nothing) == P.Step(old(Abs(a, P.Nothing)), P.Unregister)
      ensures OthersUntouched(a)
    {
      agents := agents - {a};
      P.RunOne(old(Abs(a, P.Nothing)), P.Unregister);
      Ran(a, [P.Unregister], P.Nothing);
    }

    // ----- identity -----

    method CreateWorkload(a: string, cgroup: string) returns (r: Result<string, ServiceError>)
      requires Valid()
      modifies if a in agents then {agents[a]} else {}
      ensures Valid() && OthersUntouched(a) && (forall b :: Abs(b, P.Nothing) == old(Abs(b, P.Nothing)))
      ensures r == if a !in agents then Err(UnknownAgent)
                   else if old(agents[a].identityCgroup).Some? then Err(WorkloadExists) else Ok(cgroup)
      ensures a in agents ==>
                && agents[a].identityDigest == old(agents[a].identityDigest)
                && agents[a].identityPid == old(agents[a].identityPid)
                && agents[a].identityCgroup == if r.Ok? then Some(cgroup) else old(agents[a].identityCgroup)
    {
      if a !in agents {
        return Err(UnknownAgent);
      }
      if agents[a].identityCgroup.Some? {
        return Err(WorkloadExists);
      }
      agents[a].identityCgroup := Some(cgroup);
      NothingMoved(a);
      return Ok(cgroup);
    }

    method IssueToken(a: string, managed: ManagedAgent, peerPid: Option<int>) returns (token: Id)
      requires Ready(a, managed)
      modifies ids, managed`identityDigest, managed`identityPid
      ensures Ready(a, managed) && OthersKept(a)
      ensures token == old(ids.next) && ids.next == token + 1
      ensures managed.identityDigest == Some(token) && managed.identityPid == peerPid
    {
      token := ids.Take();
      managed.identityDigest := Some(token);
      managed.identityPid := peerPid;
    }

    /** A newly drawn token replaces whatever identity the agent had. */
    method IssueIdentityToken(a: string, peerPid: Option<int>) returns (r: Result<Id, ServiceError>)
      requires Valid()
      modifies ids, if a in agents then {agents[a]} else {}
      ensures Valid() && OthersUntouched(a) && agents == old(agents)
      ensures Abs(a, P.Nothing) == P.Run(old(Abs(a, P.Nothing)), if r.Ok? then [P.DrawElsewhere(1)] else [])
      ensures r.Ok? <==> (peerPid.Some? ==> peerPid.value > 0) && a in agents && old(agents[a].identityCgroup).Some?
      ensures r.Err? ==> r.error == if peerPid.Some? && peerPid.value <= 0 then InvalidPid
                                    else if a !in agents then UnknownAgent else NoWorkload
      ensures r.Ok? ==> r.value == old(ids.next) < ids.next
                        && agents[a].identityDigest == Some(r.value) && agents[a].identityPid == peerPid
      ensures a in agents ==>
                && LiveOf(a) == old(LiveOf(a)) && agents[a].identityCgroup == old(agents[a].identityCgroup)
                && (r.Err? ==> agents[a].identityDigest == old(agents[a].identityDigest)
                               && agents[a].identityPid == old(agents[a].identityPid))
    {
      if peerPid.Some? && peerPid.value <= 0 {
        return Err(InvalidPid);
      }
      if a !in agents {
        return Err(UnknownAgent);
      }
      if agents[a].identityCgroup.None? {
        return Err(NoWorkload);
      }
      var token := IssueToken(a, agents[a], peerPid);
      OneAgentMoved(a);
      Drew(a);
      return Ok(token);
    }

    /** What `authorize` decides about a managed agent whose identity has, or has not, been authenticated:
        the policy is asked exactly if it has and the runtime was executable and made no transition. */
    static ghost predicate Decides(managed: ManagedAgent, before: World, judged: Verdict, trace: seq<string>,
                                   authenticated: bool, race: seq<Op>, d: Decision)
      reads managed.policy, managed.runtime, managed.runtime.ids
    {
      var after := ApplyAll(before, race);
      var asked := authenticated && before.rt.state == Active && !Transitioned(before, race);
      && Verdict(d.decision, managed.policy.trace) == (if asked then judged else Verdict(Deny, trace))
      && (asked <==> d.reason !in {NotAuthenticated, NotExecutable, NoLongerAuthorized})
      && (!asked ==> d.reason == if !authenticated then NotAuthenticated
                                 else if before.rt.state != Active then NotExecutable else NoLongerAuthorized)
      && managed.runtime.Abs() == if d.decision == Halt then Apply(after, OpHalt) else after
    }

    static method AuthorizeManaged(managed: ManagedAgent, action: Action, token: Option<Id>, peerPid: Option<int>,
                                   member: bool, race: seq<Op>)
      returns (decision: Decision)
      requires managed.runtime.Valid() && managed.policy.Valid() && forall i :: 0 <= i < |race| ==> Forward(race[i])
      modifies managed.policy, managed.runtime, managed.runtime.ids
      ensures managed.runtime.Valid() && managed.policy.Valid()
              && managed.runtime.ids.next >= old(managed.runtime.ids.next)
      ensures managed.runtime.capability == old(managed.runtime.capability)
      ensures Decides(managed, old(managed.runtime.Abs()),
                      old(Judge(managed.policy.config, managed.policy.trace, action)),
                      old(managed.policy.trace), managed.Authenticates(token, peerPid, member), race, decision)
      ensures decision.actionId == action.actionId
    {
      var epoch, active := managed.runtime.epoch, managed.runtime.state == Active;
      var authenticated := managed.Authenticates(token, peerPid, member);
      EpochTellsForward(managed.runtime.Abs(), race);
      ProofOfRun(managed.runtime.Abs(), race);
      managed.runtime.PerformAll(race);
      if !authenticated {
        decision := Decision(action.actionId, Deny, NotAuthenticated);
      } else if !active {
        decision := Decision(action.actionId, Deny, NotExecutable);
      } else if managed.runtime.state != Active || managed.runtime.epoch != epoch {
        decision := Decision(action.actionId, Deny, NoLongerAuthorized);
      } else {
        decision := managed.policy.Evaluate(action);
      }
      if decision.decision == Halt {
        managed.runtime.Halt();
      }
    }

    method AuthorizeRegistered(a: string, managed: ManagedAgent, action: Action, token: Option<Id>,
                               peerPid: Option<int>, member: bool, race: seq<Op>)
      returns (decision: Decision)
      requires InOrder() && a in agents && agents[a] == managed && managed.policy.Valid()
      requires forall i :: 0 <= i < |race| ==> Forward(race[i])
      modifies ids, managed.policy, managed.runtime
      ensures InOrder() && OthersUntouched(a) && managed.policy.Valid()
      ensures managed.runtime.capability == old(managed.runtime.capability)
      ensures Decides(managed, old(managed.runtime.Abs()),
                      old(Judge(managed.policy.config, managed.policy.trace, action)),
                      old(managed.policy.trace), managed.Authenticates(token, peerPid, member), race, decision)
      ensures decision.actionId == action.actionId
    {
      decision := AuthorizeManaged(managed, action, token, peerPid, member, race);
      OneAgentMoved(a);
    }

    /** What `authorize` and the threads beside it do to the runtime. */
    static function Halting(race: seq<Op>, d: Decision): seq<Op> {
      if d.decision == Halt then race + [OpHalt] else race
    }

    /** `authorize` while other threads do `race` to the runtime between its two locked sections;
        `member` is what the membership predicate answers. The policy is asked exactly when the token
        presented is the issued one, comes from the process it was issued to, if it was issued to one, and
        that process is in the agent's cgroup, and the runtime was executable and made no transition
        meanwhile. */
    method Authorize(action: Action, token: Option<Id>, peerPid: Option<int>, member: bool, race: seq<Op>)
      returns (r: Result<Decision, ServiceError>)
      requires Valid() && forall i :: 0 <= i < |race| ==> Forward(race[i])
      requires action.agentId in agents ==> agents[action.agentId].policy.Valid()
      modifies ids, if action.agentId in agents then {agents[action.agentId].policy, agents[action.agentId].runtime}
        else {}
      ensures InOrder() && OthersUntouched(action.agentId) && agents == old(agents)
      // A recovery in `race` is another call of the service, and keeps its order by its own contract.
      ensures Stops(race) ==> Valid()
      ensures Stops(race) && r.Ok? ==>
                Stops(Halting(race, r.value))
                && Abs(action.agentId, P.Nothing)
                  == P.Run(old(Abs(action.agentId, P.Nothing)), P.Threads(Halting(race, r.value)))
      ensures r.Ok? <==> action.agentId in agents
      ensures r.Err? ==> r == Err(UnknownAgent) && Abs(action.agentId, P.Nothing) == old(Abs(action.agentId, P.Nothing))
      ensures r.Ok? ==>
                var managed := agents[action.agentId];
                var authenticated :=
                  && token.Some? && old(managed.identityDigest) == token
                  && (old(managed.identityPid).None? || peerPid == old(managed.identityPid))
                  && old(managed.identityCgroup).Some? && peerPid.Some? && member;
                && managed.policy.Valid() && r.value.actionId == action.actionId
                && (r.value.reason !in {NotAuthenticated, NotExecutable, NoLongerAuthorized} <==>
                      authenticated && old(managed.runtime.state) == Active
                        && !Transitioned(old(managed.runtime.Abs()), race))
                && Decides(managed, old(managed.runtime.Abs()),
                           old(Judge(managed.policy.config, managed.policy.trace, action)),
                           old(managed.policy.trace), authenticated, race, r.value)
                && (r.value.decision == Halt ==>
                      managed.runtime.state == Halted
                        && managed.runtime.epoch == ApplyAll(old(managed.runtime.Abs()), race).rt.epoch + 1)
    {
      var a := action.agentId;
      if a !in agents {
        return Err(UnknownAgent);
      }
      var decision := AuthorizeRegistered(a, agents[a], action, token, peerPid, member, race);
      if Stops(race) {
        ApplyAllAppend(old(agents[a].runtime.Abs()), race, [OpHalt]);
        ApplyOne(ApplyAll(old(agents[a].runtime.Abs()), race), OpHalt);
        ThreadsRan(a, Halting(race, decision));
      }
      return Ok(decision);
    }

    // ----- beside the service -----

    /** What threads that hold only the runtime's lock do to a registered runtime. */
    method Interfere(a: string, ops: seq<Op>)
      requires Valid() && Stops(ops)
      modifies ids, if a in agents then {agents[a].runtime} else {}
      ensures Valid() && OthersUntouched(a) && agents == old(agents)
      ensures Abs(a, P.Nothing) == if a in agents then P.Run(old(Abs(a, P.Nothing)), P.Threads(ops))
              else old(Abs(a, P.Nothing))
    {
      if a in agents {
        var managed := agents[a];
        StopsCount(managed.runtime.Abs(), ops);
        managed.runtime.PerformAll(ops);
        OneAgentMoved(a);
        ThreadsRan(a, ops);
      }
    }

    /** The record filed under `target`, with a proof. */
    method Prove(a: string, target: nat, reference: string, writes: bool) returns (ok: bool, ghost at: nat)
      requires Registries()
      modifies incidents
      ensures Registries() && SameForOthers(old(incidents.records), incidents.records, a)
      ensures var before := old(Incidents(incidents.records, a));
              && (ok ==> at < |before| && before[at].id == IncidentId(a, target) && before[at].state != Recovered)
              && Incidents(incidents.records, a) == if ok then P.SetState(before, at, IncidentState.Contained)
                else before
    {
      ok, at := false, 0;
      var id := IncidentId(a, target);
      KnownView(incidents.records, a, target);
      var k := incidents.Find(id);
      if k < |incidents.records| {
        at := CountBefore(incidents.records, a, k);
        UpdateView(incidents.records, k, AsProved(incidents.records[k], reference));
        var r := incidents.AttachProof(id, reference, writes);
        ok := r.Ok?;
      }
    }

    /** A proof attached by the evidence recorder to the incident filed under `target`. */
    method AttachProof(a: string, target: nat, reference: string, writes: bool) returns (ok: bool, ghost at: nat)
      requires Valid()
      modifies incidents
      ensures Valid() && OthersUntouched(a) && agents == old(agents)
      ensures Abs(a, P.Nothing) == P.Run(old(Abs(a, P.Nothing)), if ok then [P.AttachProof(at, true)] else [])
    {
      ghost var s := Abs(a, P.Nothing);
      ok, at := Prove(a, target, reference, writes);
      ghost var acts := if ok then [P.AttachProof(at, true)] else [];
      P.RunOne(s, P.AttachProof(at, true));
      Ran(a, acts, P.Nothing);
    }
  }

  /** The process dies and a new one builds its service over the same two files: for every agent this
      is the protocol's crash, whatever the old process was in the middle of. */
  method Restart(stopped: ContainmentService) returns (service: ContainmentService)
    requires stopped.Registries() && Settled(stopped.incidents.records)
    ensures fresh(service) && service.Valid() && service.agents == map[] && service.ids == stopped.ids
    ensures fresh(service.incidents) && fresh(service.fences)
    ensures forall a, out :: service.Abs(a, out) == P.Step(stopped.Abs(a, out), P.Crash)
    ensures forall a, pc, out :: service.Abs(a, out) == P.Step(stopped.Abs(a, out).(pc := pc), P.Crash)
  {
    var incidents := new IncidentRegistry(true, stopped.incidents.disk);
    var fences := new RuntimeFenceRegistry(true, stopped.fences.disk);
    service := new ContainmentService(incidents, fences, stopped.ids);
  }
}
