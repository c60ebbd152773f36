# AgentContainment: a verified model of containment, crash and recovery

AgentContainment holds three copies of one fact, "agent X is contained at epoch e": the live
runtime, a durable fence and a durable incident record. The service moves them one write at a time.
Any write can fail, the process can die between any two writes, and a restart must rebuild a safe
state from whatever pair of durable records survived. This project models that protocol, the objects
that carry it out, and the supporting cores around it, and proves what they promise.

## How the project is laid out

- `Runtime.dfy`, `FenceRegistry.dfy`, `IncidentRegistry.dfy`, `Enforcement.dfy`: the mutable objects,
  as classes whose methods are proved against functions of their state.
- `Protocol.dfy`: one agent's protocol as a small-step machine. Every durable write, enforcer call,
  runtime transition, crash and restart is a step of its own, and threads that hold only a
  runtime's lock may step at any time.
- `ProtocolSafety.dfy`, `ProtocolTheorems.dfy`, `ProtocolRestart.dfy`, `ProtocolLiveness.dfy`,
  `ContainDiscipline.dfy`, `ContainInterference.dfy`: the invariant and the theorems over all runs.
- `ServiceView.dfy`, `RecoverRuns.dfy`, `RegisterRuns.dfy`, `Service.dfy`: `ContainmentService` as a
  class over the two registries, which serve all agents at once. Every public operation is proved to
  be a run of the protocol for its own agent and to leave every other agent's view alone, and the
  protocol's invariant for every agent is part of the class invariant (`Guarded` in `Valid`).
- `ServiceHistory.dfy`, `AgentHistory.dfy`, `CrashPoints.dfy`: `Serve` drives the class through any sequence of calls for
  any agents, with failing devices and providers, threads that stop runtimes, and restarts over the
  same files. What it does is, for every agent, a history in the sense of `AgentHistory.History`, and
  the admission fence, freshness and single use of authorizations, agreement and restart liveness are
  proved of every such history. A crash inside a call is in it too: after any step of any turn the files
  are those that a turn of the same kind leaves when it is over (`CrashPoints.DyingIsAnotherTurn`).
- `Policy.dfy`, `Gateway.dfy`, `Egress.dfy`, `Authorization.dfy`: the sequence policy, and three
  interleaving machines for calls that take several locked steps. `ActionGateway`, `EgressController`
  and `PolicyEngine` are classes beside them.
- `EvidenceChain.dfy`, `AgentTree.dfy`, `Destinations.dfy`: the hash chain, the agent tree and the
  destination canonicaliser. `Ordering.dfy`, `Decimal.dfy` and `Wrappers.dfy` are shared helpers.

## What is assumed

- A durable write replaces the stored value atomically, or raises and leaves it unchanged. Each
  write's answer is a boolean argument; both registries are backed by a file.
- `object()` proofs, recovery capabilities and tokens are identities drawn from a supply that never
  repeats; a token's digest is an injective function of it.
- `contain`, `recover`, `register`, `issue_recovery_authorization` and `unregister` of one service are
  serialised by its lock. Threads that hold only a runtime's lock are not: they are steps of the
  machines and lists of operations given to the methods. On a registered runtime they halt or contain.
  A runtime supplied to `register` is left alone until it is installed.
- The incident file a service starts from was written by one: no record is OPEN, and a RECOVERED one
  names the epoch after its own (`ServiceView.Settled`).
- Clock readings are strictly increasing (`ServiceView.Later`), because the latest incident is picked
  by its creation time.
- `PolicyEngine.evaluate` is one step.
- The hash of the evidence chain has no collisions and never equals the genesis value
  (`EvidenceChain.CollisionFree`).
- Python's Unicode tables and `ipaddress` are a parameter with the properties spelled out in
  `Destinations.Sane`.
- The answers of external providers are a list consulted in call order (`Enforcement.Replies`), with an
  exception once it is used up.

## What the proofs turned up

- One `contain` leaves a restartable pair of records at every crash point if and only if
  `SafeToContain` holds when it is called: nothing durable holds the agent and its epoch is past the
  last recovery, or the epoch about to be taken is the one the durable records already name.
  Containing an already contained agent is the case it excludes (`ContainDiscipline.ContainSafeIff`).
- Threads that halt or contain the runtime while such a `contain` is under way do harm in exactly one
  case, at any crash point: its fence stands, its incident was appended, and a thread moved the runtime
  between the moment the epoch was read and the moment it was reported. Then the fence is behind the
  incident and a restart refuses the pair (`ContainInterference.InterferenceIff`, with
  `ContainDiscipline.HaltInWindowBreaksRestart` as an input).
- Registering again with a supplied runtime contained at the containment epoch aborts an ambiguous
  recovery and counts as a containment: "at most one `contain` between activations" has to be
  counted with it (`ContainDiscipline.Rearm`). Counted without it, it is not enough: after a recovery
  that returned, a crash and such a registration, one `contain` can leave a pair that a restart refuses
  (`ContainDiscipline.PlainCountingFails`).
- `ContainmentController.recover` alone holds no lock. If the runtime is ACTIVE when it is called and
  another thread contains it before the activation, it returns, and its providers were released while
  the runtime could execute; on a runtime that was stopped they never are. Both directions are in its
  contract, and `Enforcement.ReleasedWhileExecutable` is an input. `ContainmentService.recover` checks
  the runtime first, so its providers are only called over a stopped runtime.
- A supplied runtime that is stopped but not CONTAINED, so HALTED or PAUSED, is admitted by any pair of
  records, one whose fence and incident disagree included, and the disagreement stays
  (`ProtocolRestart.HaltedIsAdmitted`). `ProtocolRestart.RegistrationIff` says exactly which runtimes and
  which pairs go together.
- An unclassified operation counts as risk 0, not as unclassified: with a threshold of 0 every operation is
  refused, whatever figure the caller gives (`PolicyEngine.Evaluate`).
- `mark_proof_degraded` drops a proof already attached (`incident_state.py:89-100`), and the model
  does too.
- `authorize` compares epochs where leases compare proofs. That is enough because nothing restores the
  epoch of a registered runtime (`RuntimeModel.EpochTellsForward`); with a restore in between it would
  not be (`RuntimeModel.RestoreFoolsEpoch`).
- A sequence rule configured to answer ALLOW lets its operation through without committing it to
  history; the window guarantee is about committed operations.
- The window of `history_limit + 1` operations is exact in both directions: an admitted operation is
  committed precisely when every such window stays safe, and for every limit there is a trace one
  operation longer that is committed in full and contains a forbidden sequence.
- `verify` alone does not see the newest nodes being dropped, although the module's documentation says
  it detects deletion (`evidence_chain.py:6-8`); comparing the head does.

## Model

| member | source | states |
|---|---|---|
| RuntimeModel.LeaseGenerations | src/agent_containment/runtime.py:157-182 | an acquired lease is accepted later if and only if no halt, contain, recover or restore took effect in between, even when the epoch has been restored |
| RuntimeModel.ProofOfRun | src/agent_containment/runtime.py:64-139 | over any sequence of operations a transition leaves a newly drawn proof, and without one nothing but the capability moves |
| RuntimeModel.EpochTellsForward | src/agent_containment/control.py:317-320 | over halts, containments and recoveries an unchanged epoch is equivalent to no transition |
| RuntimeModel.RestoreFoolsEpoch | src/agent_containment/runtime.py:132-139 | with a restore in between, epoch and state can be back although a transition happened, and only the proof tells |
| RuntimeModel.HaltHolds | src/agent_containment/runtime.py:64-130 | a halt holds: no recovery and no restoration of a containment brings a halted runtime back or takes it anywhere else |
| RuntimeModel.Runtime.Halt | src/agent_containment/runtime.py:64-68 | legal from every state; HALTED, one epoch on, with a newly drawn proof and the capability it had |
| RuntimeModel.Runtime.Contain | src/agent_containment/runtime.py:70-74 | CONTAINED, one epoch on, with a newly drawn proof and the capability it had |
| RuntimeModel.Runtime.RestoreContained | src/agent_containment/runtime.py:76-99 | accepted exactly from ACTIVE, which takes the given epoch and a new proof, or from CONTAINED at the same epoch, which changes nothing; otherwise the one error and no change |
| RuntimeModel.Runtime.Recover | src/agent_containment/runtime.py:107-130 | succeeds exactly for the current capability on a CONTAINED runtime at the expected epoch, which becomes ACTIVE at the next epoch with a new proof; otherwise the first error that applies and no change |
| RuntimeModel.Runtime.RestoreActive | src/agent_containment/runtime.py:132-139 | refuses negative epochs, otherwise ACTIVE at the given epoch with a new proof |
| RuntimeModel.Runtime.RotateRecoveryCapability | src/agent_containment/runtime.py:101-105 | only the capability changes, to an identity never used before |
| RuntimeModel.Runtime.AcquireLease | src/agent_containment/runtime.py:157-161 | a lease on the current epoch and proof exactly when ACTIVE |
| RuntimeModel.Runtime.LeaseValid | src/agent_containment/runtime.py:175-182 | agent, epoch, proof and ACTIVE state all agree |
| FenceRegistry.Load | src/agent_containment/runtime_fence.py:62-80 | a stored listing is accepted exactly when no agent is listed twice, yields the map it lists, and reports a real duplicate otherwise |
| FenceRegistry.ListingDeterminesMap | src/agent_containment/runtime_fence.py:62-80 | a listing denotes at most one map |
| FenceRegistry.Listing | src/agent_containment/runtime_fence.py:82-89 | what is persisted lists the dict: each fence once, and no other |
| FenceRegistry.StoreAndLoad | src/agent_containment/runtime_fence.py:62-89 | what one registry persists is what the next one loads |
| FenceRegistry.RuntimeFenceRegistry.Prepare | src/agent_containment/runtime_fence.py:36-47 | memory and disk gain the fence together or neither changes; each rejected argument |
| FenceRegistry.RuntimeFenceRegistry.Clear | src/agent_containment/runtime_fence.py:53-60 | memory and disk lose the fence together or neither changes; clearing a missing fence succeeds without a write |
| IncidentRegistry.IncidentIdInjective | src/agent_containment/control.py:817-819 | distinct agents or epochs never share an incident identifier, whatever characters the agent id contains |
| IncidentRegistry.LatestIsLast | src/agent_containment/incident_state.py:179-185 | with increasing clock readings the record picked by creation time is the agent's last inserted one |
| IncidentRegistry.IncidentRegistry.RecordContainment | src/agent_containment/incident_state.py:58-81 | each rejection with its error, and otherwise one CONTAINED record, field by field, appended in memory and on disk, or nothing if the write fails |
| IncidentRegistry.IncidentRegistry.MarkProofDegraded | src/agent_containment/incident_state.py:83-102 | the one record becomes PROOF_DEGRADED with the reason and loses its proof, nothing else of it changes, write first; each error |
| IncidentRegistry.IncidentRegistry.RestoreContained | src/agent_containment/incident_state.py:104-126 | only a RECOVERED record goes back to CONTAINED, keeping what was recorded of its recovery, write first; each error |
| IncidentRegistry.IncidentRegistry.MarkRecovered | src/agent_containment/incident_state.py:128-152 | only a standing record becomes RECOVERED, at the epoch after its containment, nothing else of it changes, write first; each error |
| IncidentRegistry.IncidentRegistry.AttachProof | src/agent_containment/incident_state.py:154-177 | any record that is not RECOVERED becomes CONTAINED with the proof and its reference, nothing else of it changes, write first; each error |
| IncidentRegistry.IncidentRegistry.LatestForAgent | src/agent_containment/incident_state.py:179-185 | the agent's record with the greatest creation time, the older one on ties, or none |
| Enforcement.SweepReports | src/agent_containment/containment.py:280-302 | a sweep reports no failure if and only if every provider was applied and then verified with the wanted status, in the order of `ReleaseInReverse` or `ContainmentInOrder`; all its calls see one runtime state |
| Enforcement.ReleaseInReverse | src/agent_containment/containment.py:280-302 | a verified release is exactly 2n calls, the last provider first: released, then verified, each answered RELEASED; so every provider has answered both |
| Enforcement.ContainmentInOrder | src/agent_containment/containment.py:231-372 | a verified containment is exactly 2n calls, the first provider first: contained, then verified, each answered ENFORCED; so every provider has answered both |
| Enforcement.SweepAsks | src/agent_containment/containment.py:280-372 | whatever the providers answer, each is asked exactly once and in order, is verified right after if and only if it agreed, and the failures are the declined calls in order |
| Enforcement.ContainmentController.ReportAccounts | src/agent_containment/containment.py:202-266 | what a report says: complete if and only if no hook raised and every provider was applied and verified; every raising hook, every other hook, every declined call and every verified provider is in it, and nothing else |
| Enforcement.HooksInOrder | src/agent_containment/containment.py:216-238 | faults and stages come in the order of the hooks |
| Enforcement.ContainmentController.Contain | src/agent_containment/containment.py:202-278 | fence first: every provider call sees a runtime that cannot execute, whatever other threads do after the fence; the report carries the runtime's agent and epoch, is complete if and only if no hook raised and the new calls confirm every provider, certified if and only if there is besides a provider at all, and has every raising hook among its failures and every other one among its stages |
| Enforcement.ContainmentController.ReleaseEnforcers | src/agent_containment/containment.py:280-302 | every provider is asked, the last first, verified if and only if it agreed; the failures are the declined calls |
| Enforcement.ContainmentController.RecontainEnforcers | src/agent_containment/containment.py:350-372 | every provider is asked, the first first, verified if and only if it agreed; the failures are the declined calls |
| Enforcement.ContainmentController.Recover | src/agent_containment/containment.py:304-348 | for anything other threads do between the release and the activation: returns exactly when the release reports no failure and the runtime is then CONTAINED at the expected epoch under that capability; on return every provider had been released and verified, the last first, over the runtime as it was when the call began, and while it could not execute if and only if it was stopped then; on a raise the call itself has not touched the runtime, and no re-containment failure means every provider is applied and verified again; the recovery report, field by field |
| Enforcement.ReleasedWhileExecutable | src/agent_containment/containment.py:304-348 | an input for the other case: an ACTIVE runtime that another thread contains in between |
| Enforcement.SweepConfirms | src/agent_containment/containment.py:280-372 | over a stopped runtime a sweep without failures is one that applied and verified every provider, each call made while the runtime could not execute |
| ProtocolSafety.SafeStep | src/agent_containment/control.py:74-804 | the protocol invariant is kept by every step: calls, answered writes, other threads, crashes and restarts |
| ProtocolSafety.SafeRun | src/agent_containment/control.py:74-804 | and so along every run, which never loses a durable mark |
| ProtocolTheorems.ReachableIsSafe | src/agent_containment/control.py:48-72 | every state that any run reaches from a machine that has never contained the agent satisfies the invariant the theorems start from |
| ProtocolTheorems.NoExecutableUnderMark | src/agent_containment/control.py:84-86 | between operations an executable runtime never coexists with a fence or a standing incident |
| ProtocolTheorems.PermanentAdmissionFence | src/agent_containment/control.py:84-213 | once one durable write of a containment has committed, a durable mark remains over every later run, and no registration without a supplied controller yields an executable runtime |
| ProtocolTheorems.AgreementAfterRegistration | src/agent_containment/control.py:139-213 | a completed registration that is CONTAINED leaves fence, latest incident and runtime at one epoch with the incident standing; one that is executable has no fence and attests the recorded recovery epoch |
| ProtocolTheorems.RecoveryIsATransaction | src/agent_containment/control.py:696-804 | every recovery, whatever fails and whoever interferes, returns e+1 with no fence, the incident RECOVERED and the runtime activated at an event before which nobody had touched it; or raises with the runtime exactly as the other threads alone would have left it, and with fence and incident back at e if its compensating writes succeeded |
| ProtocolTheorems.AuthorizationIsFresh | src/agent_containment/control.py:671-692 | an authorization is accepted only if the runtime it was issued for has made no transition since and the process has not died |
| ProtocolTheorems.RecoverySeesIssuedRuntime | src/agent_containment/control.py:671-789 | if a call of `recover` with an issued authorization returns, nobody halted or contained the runtime from the issue to the activation itself |
| ProtocolTheorems.AuthorizationIsSingleUse | src/agent_containment/control.py:787-789 | once a recovery activates, no authorization built on any identity drawn before is accepted again, restarts included |
| ProtocolTheorems.IssuedIdentityIsDrawn | src/agent_containment/control.py:664-669 | an issued authorization is admissible at once and names an identity already drawn |
| ProtocolRestart.RestartAcceptedIff | src/agent_containment/control.py:87-213 | a restart without a controller is accepted if and only if the surviving pair is coherent and not ambiguous, and then holds the agent at the pair's epoch, or starts it when there is no mark |
| ProtocolRestart.AmbiguousRestartAcceptedIff | src/agent_containment/control.py:150-180 | an ambiguous pair is accepted if and only if the supplied runtime is contained at the containment epoch, which aborts the recovery, or active at the recovery epoch, which attests it |
| ProtocolRestart.RegistrationIff | src/agent_containment/control.py:74-213 | one call of `register`, with or without a controller and under any answers of the device: exactly when it returns, and the fence, the incidents and the table entry it leaves, returned or raised; without a durable mark it always returns, with the runtime as it was supplied |
| ProtocolRestart.HaltedIsAdmitted | src/agent_containment/control.py:139-206 | an input: a supplied HALTED runtime is admitted by a fence and a standing incident that disagree |
| ProtocolLiveness.OrderedRun | src/agent_containment/control.py:508-804 | under disciplined use every run keeps incidents of increasing epochs and a fence that agrees with them, at every step in between |
| ProtocolLiveness.RestartLiveness | src/agent_containment/control.py:87-206 | after any disciplined run with any writes failing and a crash after any step, the surviving pair restarts, with the conditions on a supplied runtime where it is ambiguous |
| ContainDiscipline.ContainSafeIff | src/agent_containment/control.py:508-552 | one containment is safe against every failure and crash point if and only if the registries and the epoch say so beforehand |
| ContainDiscipline.UnsafeContainWitness | src/agent_containment/control.py:139-149 | otherwise a schedule of failures and a crash point that leaves a pair registration refuses |
| ContainInterference.InterferenceIff | src/agent_containment/control.py:508-582 | from a state in which `contain` is safe, with any answers, any steps of other threads and any crash point, the pair is one a restart accepts unless the call's fence stands, its incident was appended and a thread moved the runtime between the epoch read and the report |
| ContainDiscipline.HaltInWindowBreaksRestart | src/agent_containment/control.py:514-546 | an input for that case: both writes succeed and one halt in between leaves a fence behind its incident |
| ContainDiscipline.OncePerActivationIsDisciplined | src/agent_containment/control.py:508-615 | requesting containment at most once between activations, with no thread halting or containing the runtime between the epoch read and the report, meets the discipline |
| ContainDiscipline.OncePerActivationRestarts | src/agent_containment/control.py:87-206 | so every crash point of every such run restarts: CONTAINED at its epoch if there is a mark and it is not ambiguous, and as the supplied runtime attests, active or contained, if it is |
| ContainDiscipline.PlainCountingFails | src/agent_containment/control.py:150-180 | after a recovery that returned, a crash, and a registration that aborts it with the contained runtime, some cut of one single `contain` leaves a pair a restart refuses |
| ContainDiscipline.RestartedAgentRecovers | src/agent_containment/control.py:644-804 | a restarted agent can be issued an authorization and recovered one epoch on |
| ContainDiscipline.ContainResult | src/agent_containment/control.py:508-582 | where one call of `contain` ends under any failures, with other threads stopping the runtime any number of times before and after the call does, as a run |
| ContainDiscipline.ContainLeaves | src/agent_containment/control.py:508-615 | what one call of `contain` leaves under any failures and interference: the fence at the epoch asked for, the runtime stopped one epoch on for the call and one for every other transition, one incident under the epoch asked for and at the epoch reported, degraded if the audit log failed; and when it raises |
| RecoverRuns.RecoverResult | src/agent_containment/control.py:671-804 | where one call of `recover` ends under any failures, with other threads stopping the runtime any number of times before the activation and between it and the rotation, as a run |
| RecoverRuns.RecoverLeaves | src/agent_containment/control.py:671-804 | when one call of `recover` is accepted, where it stops under each failure, and the fence, the incident, the runtime and the capability it leaves in each case |
| RegisterRuns.RegisterResult | src/agent_containment/control.py:74-217 | where one call of `register` ends under any failures, as a run |
| ServiceView.KnownView | src/agent_containment/control.py:817-819 | an identifier is a key of the shared dict exactly when it is one of the agent's own incidents |
| ServiceView.AppendView | src/agent_containment/incident_state.py:58-81 | a new record extends its own agent's history and no other agent's |
| ServiceView.UpdateView | src/agent_containment/incident_state.py:83-177 | a replaced record changes its own agent's history at one place and no other agent's |
| ServiceView.LatestView | src/agent_containment/incident_state.py:179-185 | the registry's latest record is the last of the agent's history |
| Service.ContainmentService.Contain | src/agent_containment/control.py:508-615 | `contain` is a run of the protocol, with other threads stopping the runtime before and after its own fence; its controller's providers have been swept once over the stopped runtime whether it returns or raises; the identity is revoked; the report is the controller's own, complete, certified and durable exactly when the hooks, the calls just made and the two writes say so |
| Service.ContainmentService.Recover | src/agent_containment/control.py:671-804 | `recover` is a run of the protocol, with other threads stopping the runtime before and after the activation; exactly when it returns, what it leaves and what its caller is told for each write, provider and interference that goes wrong; the provider calls made are exactly those of a release and, after a failed write or activation, of a containment, over the runtime as it was before the activation |
| Service.RecoveryAsks | src/agent_containment/control.py:706-785 | who is asked in a recovery, whatever its outcome: nobody before the fence is gone, then every provider to release, and every provider to contain again if the incident could not be admitted or the runtime not activated, whatever else could be put back |
| Service.RecoveryCallsSee | src/agent_containment/control.py:706-780 | every provider call of a recovery is made over the stopped runtime, before the activation |
| Service.ReturnMeansReleased | src/agent_containment/control.py:706-723 | when `recover` returns, every provider has been released and verified, the last first, while the runtime could not execute |
| Service.CompensatedMeansReapplied | src/agent_containment/control.py:728-785 | when `recover` raises and says it was compensated, every provider has been released and verified and then applied and verified again |
| Service.ContainmentService.Register | src/agent_containment/control.py:74-217 | `register` is a run of the protocol, with or without a supplied controller; exactly when it returns and what it leaves of the durable records; the table gains the entry or is unchanged |
| Service.ContainmentService.IssueRecoveryAuthorization | src/agent_containment/control.py:644-669 | an authorization is issued exactly when fence, latest incident and runtime hold the agent at one epoch and every provider has just been applied and verified by the calls made; it names that epoch and the current capability; nothing else moves |
| Service.ContainmentService.ReconcileContainment | src/agent_containment/control.py:617-642 | accepted exactly when fence, latest incident and runtime hold the agent at one epoch, and then every provider has been asked: the failures are theirs, and there are none exactly when each was applied and verified; nothing else moves |
| Service.ContainmentService.Unregister | src/agent_containment/control.py:497-499 | exactly one table entry goes, and nothing durable |
| Service.ContainmentService.CreateWorkload | src/agent_containment/control.py:226-241 | a cgroup identity is set once |
| Service.ContainmentService.IssueIdentityToken | src/agent_containment/control.py:265-275 | a newly drawn token replaces whatever identity the agent had, only once a workload exists |
| Service.ContainmentService.Authorize | src/agent_containment/control.py:277-331 | the policy is asked exactly when the token presented is the issued one, the process is the one it was issued to, if any, and is in the agent's cgroup, and the runtime was executable with no transition between the two locked sections; the reason of every other denial; a HALT halts the runtime; to the protocol it is what the threads beside it do |
| Service.Restart | src/agent_containment/control.py:48-72 | a new service over the same two files is, for every agent, the protocol's crash |
| ServiceHistory.Serve | src/agent_containment/control.py:48-804 | a service started over any two files and driven by any script of requests, for any agents, with any failures, stopping threads and restarts, stays valid and is, for every agent, a history whose turns answer the script |
| AgentHistory.HistoryIsRun | src/agent_containment/control.py:74-804 | any part of a history is one run of the agent's protocol |
| AgentHistory.NeverExecutableUnderMark | src/agent_containment/control.py:84-86 | between the calls of any history an executable runtime has no fence and no standing incident |
| AgentHistory.AdmissionFence | src/agent_containment/control.py:74-213 | over any history a mark stays for ever; every accepted registration of a marked agent leaves fence, incident and runtime in agreement, and CONTAINED unless a runtime was supplied |
| AgentHistory.RegistrationTurnIff | src/agent_containment/control.py:74-217 | every registration of every history, supplied or not, under any answers of the device: refused without a trace if the agent is registered, nameless or another's, otherwise accepted exactly when `RegistrationLeaves` says, leaving what it says; an unmarked agent is always accepted, with the runtime as supplied |
| AgentHistory.ContainmentTurn | src/agent_containment/control.py:508-615 | every containment of every history answers, and leaves runtime, fence and incidents, as `ContainmentLeaves` says |
| AgentHistory.SingleUse | src/agent_containment/control.py:671-789 | once a recovery is accepted, every recovery accepted later in the history presents an identity drawn after that call began |
| AgentHistory.IssuedIsFresh | src/agent_containment/control.py:644-692 | an authorization issued by one call and accepted by a later one: the table entry was the same at every moment in between, and no containment, recovery, deregistration, stopping thread or restart came between |
| AgentHistory.RecoveryTurn | src/agent_containment/control.py:671-789 | an accepted call presented the current capability, found the runtime untouched and left it activated at the next epoch under a newly drawn capability |
| AgentHistory.RefusedRecoveryTurn | src/agent_containment/control.py:671-785 | a refused call leaves the runtime as the other threads did, and the agent held again if its compensating writes succeeded |
| AgentHistory.OrderedThroughout | src/agent_containment/control.py:508-804 | if `contain` is only called when the records and the epoch say it is safe, and nobody moves the runtime meanwhile, the agent's records stay in order over the whole history |
| AgentHistory.ReregistrationIff | src/agent_containment/control.py:87-213 | a registration of an agent that is not registered, on a device that answers, is accepted if and only if its pair is coherent and not ambiguous, and then held at the pair's epoch; after careful use every pair is coherent |
| AgentHistory.SettlementIff | src/agent_containment/control.py:150-180 | an ambiguous pair is accepted if and only if the supplied runtime is contained at the containment epoch or active at the recovery epoch, and what is left in each case |
| CrashPoints.DyingIsAnotherTurn | src/agent_containment/control.py:84-804 | after any step of any turn of a history the fence and the incidents are those that a turn of the same kind leaves when it is over, under other answers of the devices, the providers and the other threads |
| AgentHistory.DyingIsFailing | src/agent_containment/control.py:84-206 | from any point of any call, refusing its remaining writes ends it with the files as they were at that point |
| Policy.GreedyIsComplete | src/agent_containment/policy.py:86-96 | the single-pass scan matches if and only if some strictly increasing choice of positions embeds the sequence |
| Policy.MatchesSubsequence | src/agent_containment/policy.py:86-96 | the loop with its early exit decides exactly that |
| Policy.ConsecutiveIsStricter | src/agent_containment/policy.py:82-85 | a consecutive rule fires exactly on the texts that end in its sequence, and whenever it fires it would fire without being consecutive |
| Policy.HistorySuffices | src/agent_containment/policy.py:77-102 | no rule fires on the bounded history and the operation if and only if every window of `limit + 1` operations of the extended trace is safe |
| Policy.WindowBoundIsTight | src/agent_containment/policy.py:57-57 | for every limit a fully committed trace of `limit + 2` operations can contain a forbidden sequence |
| Policy.RecentExtended | src/agent_containment/policy.py:104-104 | appending to the bounded deque refines appending to the full trace |
| Policy.PolicyEngine.Evaluate | src/agent_containment/policy.py:59-105 | a denied operation, or one at or above the threshold by the caller's figure or the controller's classification (0 if there is none), is answered HALT with its reason and leaves no trace; any other is committed and allowed exactly when all windows stay safe; otherwise the first firing rule decides and history is unchanged |
| Policy.PolicyEngine.ResetHistory | src/agent_containment/policy.py:107-109 | the trace starts over |
| Gateway.EffectStory | src/agent_containment/gateway.py:31-131 | in every interleaving, a started effect belongs to a call for the runtime's agent that held a valid lease, was then answered ALLOW in that same call, and saw no transition from the lease to the effect |
| Gateway.EveryEffectExplained | src/agent_containment/gateway.py:31-131 | every effect on record has that story: events i < k < j at which its call had the lease, was answered ALLOW and started it, with no transition from i to j |
| Gateway.NoEffectPastFence | src/agent_containment/runtime.py:184-200 | from any moment at which a lease's proof had been drawn to the start of the effect, the runtime made no transition |
| Gateway.UndisturbedLeaseStands | src/agent_containment/runtime.py:175-182 | conversely a valid lease stays valid exactly as long as nothing disturbs the runtime |
| Gateway.EffectsComeFromStarts | src/agent_containment/gateway.py:63-75 | no other step adds an effect |
| Gateway.AloneCompletes | src/agent_containment/gateway.py:31-131 | a call nobody interferes with gets all the way, on each of the three paths: the policy is asked exactly for the runtime's own agent under a good lease while executable, an ALLOW starts the effect, a HALT halts the runtime, and the trace is the policy's |
| Gateway.ActionGateway.Authorize | src/agent_containment/gateway.py:31-42 | DENY for another agent or a runtime that is not executable, otherwise the policy's answer; the trail keeps its earlier decisions, grows by that one and is cut to its limit; HALT halts |
| Gateway.ActionGateway.Execute | src/agent_containment/gateway.py:105-131 | the effect starts exactly when the agent matches, the runtime is executable, the policy allows and no thread changes the runtime meanwhile; final runtime and trace; the trail grows by exactly one decision, or by two when an allowed call's lease did not last |
| Gateway.ActionGateway.ExecuteWithLease | src/agent_containment/gateway.py:47-75 | the same for a presented lease that is valid on entry |
| Gateway.ActionGateway.ExecuteEgress | src/agent_containment/gateway.py:80-103 | the same for an egress lease; the trail grows by the policy check's decision alone, and its own refusals leave it as it is |
| Egress.NoConnectionOutlivesContainment | src/agent_containment/egress.py:42-68 | in every interleaving, from the moment a containment takes the terminators the registry is empty and stays empty until the runtime is executable again, even against registrations that passed their check before the fence |
| Egress.EveryTerminatorOnce | src/agent_containment/egress.py:64-77 | a finished sweep has called each terminator it took exactly once and in order, whoever raised; no two sweeps share one, and none still registered was taken |
| Egress.ExclusiveRun | src/agent_containment/egress.py:42-48 | the lock is held exactly by the one thread between its check and its insertion |
| Egress.RegistersAlone | src/agent_containment/egress.py:42-48 | a registration nobody interferes with goes through exactly for the runtime's own agent while executable, and leaves the lock free |
| Egress.UnregistersAlone | src/agent_containment/egress.py:50-56 | an unregistration nobody interferes with takes out exactly the one entry |
| Egress.SweepsAlone | src/agent_containment/egress.py:64-77 | a containment nobody interferes with fences first, then takes every connection, then calls each terminator in order, whoever raises |
| Egress.EgressController.RegisterConnection | src/agent_containment/egress.py:42-48 | accepted exactly for the runtime's agent while executable; a new identifier goes to the end, a known one keeps its place; nothing else changes |
| Egress.EgressController.UnregisterConnection | src/agent_containment/egress.py:50-56 | exactly the one connection goes, the others keep their order, and an empty inner dict is never kept |
| Egress.EgressController.TerminateAll | src/agent_containment/egress.py:64-77 | the target's connections are gone, each terminator called once, and the count is of those that did not raise |
| Authorization.AllowIsCurrent | src/agent_containment/control.py:277-328 | in every interleaving, an ALLOW has a snapshot, a check of token, process and cgroup in which the membership predicate answered yes, and a revalidation, with the same table entry and identity throughout, an executable runtime with no transition from snapshot to revalidation, and the presented token as the agent's last identity event, after any containment, up to the policy's answer |
| Authorization.ContainmentRevokes | src/agent_containment/control.py:508-546 | in every interleaving, whatever call is allowed after a containment presents a token issued after it, even one that took its snapshot or passed its check before |
| Authorization.AloneDecides | src/agent_containment/control.py:277-331 | a call nobody interferes with gets all the way: the policy is asked exactly when token, process, cgroup and runtime are in order, its answer is the call's, and a HALT halts the runtime |
| Authorization.StepOk | src/agent_containment/control.py:265-331 | what every step of the interleaving keeps: snapshots, the lock, and the token behind the current digest |
| EvidenceChain.HeadDeterminesChain | src/agent_containment/evidence_chain.py:55-94 | two verified chains have the same head if and only if they are the same chain |
| EvidenceChain.RewritingIsDetected | src/agent_containment/evidence_chain.py:145-170 | no other chain that ends in the same node verifies |
| EvidenceChain.TruncationNeedsTheHead | src/agent_containment/evidence_chain.py:3-8 | a chain with its newest nodes dropped verifies, and has another head |
| EvidenceChain.FirstFaultIsUnique | src/agent_containment/evidence_chain.py:145-170 | an unverified chain has one first fault, a verified one none |
| EvidenceChain.VerifiedMeans | src/agent_containment/evidence_chain.py:145-170 | a chain verifies if and only if it is numbered from zero, records no event twice, links each node to the hash of the one before it and the first to the genesis value, and hashes each over its own body |
| EvidenceChain.IncidentEvidenceChain.Append | src/agent_containment/evidence_chain.py:96-143 | accepted exactly for well-formed new events, each error otherwise; extends the chain by one node with the next number, the head as its link and its own hash; keeps a verified chain verified |
| EvidenceChain.IncidentEvidenceChain.Verify | src/agent_containment/evidence_chain.py:145-170 | raises exactly when the chain is not verified, and then for its first fault |
| AgentTree.PreorderExact | src/agent_containment/agent_tree.py:69-83 | the sorted preorder of an agent lists it and everything below it, each once |
| AgentTree.PreorderInOrder | src/agent_containment/agent_tree.py:69-83 | in the preorder every agent comes before what is below it, and what is below one child before what is below a later one |
| Ordering.BeforeMeans | src/agent_containment/agent_tree.py:81-81 | the order of strings: a proper prefix first, otherwise the smaller first differing character |
| AgentTree.MarkedKeeps | src/agent_containment/agent_tree.py:69-83 | fencing an agent with everything below it keeps the forest and its invariants |
| AgentTree.DescendantsHold | src/agent_containment/agent_tree.py:41-67 | a descendant never holds a capability its ancestor lacks, and is contained and without capabilities whenever an ancestor is contained |
| AgentTree.AgentTree.RegisterRoot | src/agent_containment/agent_tree.py:24-39 | a new root, or an error and no change |
| AgentTree.AgentTree.Spawn | src/agent_containment/agent_tree.py:41-67 | a linked child with at most its parent's capabilities, each error in order, nothing below a contained agent |
| AgentTree.AgentTree.Contain | src/agent_containment/agent_tree.py:69-83 | the explicit stack terminates and lists exactly the agent and what is below it, each once and in sorted preorder; each of them is CONTAINED, one epoch on and without capabilities, and no other node changes |
| AgentTree.AgentTree.Descendants | src/agent_containment/agent_tree.py:85-96 | exactly what is strictly below the agent, each once |
| Destinations.PrintedParsesBack | src/agent_containment/destination_egress.py:36-84 | every canonical destination, printed, parses to itself |
| Destinations.RoundTrip | src/agent_containment/destination_egress.py:36-68 | every entry that parses, printed, parses to the same destination |
| Destinations.ParsesIff | src/agent_containment/destination_egress.py:36-68 | exactly which entries parse, canonical or not, and to what: no white space, `[host]:port` or `host:port` around the one colon, a decimal port in range, and a host that is an IP address or, up to trailing dots and case, a host name |
| Destinations.HostnameMeans | src/agent_containment/destination_egress.py:14-14 | a host name is one label or more joined by single dots, up to 253 characters |
| Destinations.LeadingZeros | src/agent_containment/destination_egress.py:53-57 | leading zeros of a port do not matter |
| Destinations.HostNormalised | src/agent_containment/destination_egress.py:61-66 | trailing dots of a host name do not matter and its case is lowered |
| Destinations.StringsDenoteTheSame | src/agent_containment/destination_egress.py:71-84 | the printed list denotes the destinations it was printed from |
| Destinations.CanonicalStringsAreFixed | src/agent_containment/destination_egress.py:76-84 | canonical strings are a fixed point |
| Destinations.CanonicalStringsDecide | src/agent_containment/destination_egress.py:76-84 | two lists print alike if and only if they denote the same destinations |
| Destinations.OrderAndRepetitionDoNotMatter | src/agent_containment/destination_egress.py:71-73 | neither order nor repetition changes the result or whether there is one |
| Destinations.CanonicalizeDestinations | src/agent_containment/destination_egress.py:71-73 | exactly the parsed entries, by host and then by port, each once, or the error of the first entry that does not parse |
| Destinations.CanonicalDestinationStrings | src/agent_containment/destination_egress.py:76-84 | the loop prints exactly the canonical strings: host, in brackets if and only if it has a colon, and port |

## Left out

- Service.ContainmentService.Contain: the audit log is a flag, not an object; governance events are not emitted.
- Service.ContainmentService.Recover: what other threads do before the activation is placed before the providers are called, since nothing the call does until then depends on it. The incident rollback after a failed RECOVERED write (`control.py:734-745`) cannot occur once a failing write leaves the disk unchanged, so the class goes straight to re-containment; the protocol machine has the step.
- Service.ContainmentService.Register: threads that hold a supplied runtime's lock do not act on it before it is installed; metadata is not kept.
- Service.ContainmentService.Authorize: its `race` argument is what others do to the runtime between the two locked sections; a recovery among them is a call of its own, so the class invariant is ensured when they only halt and contain. Interleavings with other service calls are those of `Authorization.AllowIsCurrent`.
- ServiceHistory.Serve: calls are made one after another; `authorize` is in it as what it does to the runtime, and a supplied runtime is a new object brought to its state, not one registered before.
- Service.ContainmentService.CreateWorkload: the cgroup path comes as an argument, the supervisor is not modelled.
- AgentTree.AgentTree.Contain: nodes are values in the dict, so a caller who holds a node's runtime object and drives it directly is not captured, nor are the node controllers' providers.
- Egress.NoConnectionOutlivesContainment: one agent's connections; registrations for another agent are refused before they reach them. Whether a terminator really closes its socket is outside the model.
- Gateway.EffectStory: an effect is its start; what an executor does after that, and whether it ends, is not modelled.
- EvidenceChain.IncidentEvidenceChain.Append: payloads are JSON values already; the normalisation of Python objects through `json` is taken as done. `snapshot` and `digest`, which hash a verified chain once more, are not modelled.
- Destinations.RoundTrip: `int` of port texts longer than Python's digit limit is not an error in the model, unless the number is out of range.
- Registries without a file: the service is modelled with both registries persistent.
- `configure_containment`, `attach_workload`, reviews and verification signals: they add no case to the protocol.
- Transport, client, daemon and bootstrap: sockets and argument parsing.
- Kernel, cgroup and Cilium enforcers: a provider is its answers.
- The audit log file: the theorem would be the one about the evidence chain again.
- Credentials, receipts, provenance and replay: records copied or hashed once.
