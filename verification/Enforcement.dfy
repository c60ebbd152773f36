/** External enforcement providers and the controller that drives them.
    Source: src/agent_containment/enforcer.py, src/agent_containment/containment.py. */
module Enforcement {
  import opened Wrappers
  import opened RuntimeModel

  datatype Status = Enforced | Released | VerificationFailed | Degraded | NotConfigured

  /** What a provider call comes back with: a result, or an exception. */
  datatype Reply = Answer(status: Status, detail: string) | Raises(what: string)

  datatype Verb = DoContain | VerifyContained | DoRelease | VerifyReleased

  /** One call to the provider at position `at`, and the runtime as it was meanwhile. */
  datatype Call = Call(at: nat, verb: Verb, reply: Reply, seen: Rt)

  datatype Failure = Failure(provider: string, verb: Verb, reply: Reply)

  datatype Kind = Containment | Release {
    function Apply(): Verb {
      if Containment? then DoContain else DoRelease
    }

    function Verify(): Verb {
      if Containment? then VerifyContained else VerifyReleased
    }

    function Wanted(): Status {
      if Containment? then Enforced else Released
    }
  }

  predicate Good(kind: Kind, reply: Reply) {
    reply.Answer? && reply.status == kind.Wanted()
  }

  /** How the providers answer the calls, in the order they are made; past the end of the
      list, with an exception. */
  type Replies = seq<Reply>

  function ReplyTo(replies: Replies, k: nat): Reply {
    if k < |replies| then replies[k] else Raises("unreachable")
  }

  datatype Swept = Swept(failures: seq<Failure>, log: seq<Call>)

  /** One provider: apply, then verify, unless applying already failed. */
  function Visit(kind: Kind, i: nat, name: string, replies: Replies, k: nat, rt: Rt): Swept {
    var first := Call(i, kind.Apply(), ReplyTo(replies, k), rt);
    var second := Call(i, kind.Verify(), ReplyTo(replies, k + 1), rt);
    if !Good(kind, first.reply) then Swept([Failure(name, first.verb, first.reply)], [first])
    else if !Good(kind, second.reply) then Swept([Failure(name, second.verb, second.reply)], [first, second])
    else Swept([], [first, second])
  }

  /** The provider visited `p`-th of `n`: containment goes forwards, release backwards. */
  function At(kind: Kind, n: nat, p: nat): nat
    requires p < n
  {
    if kind.Containment? then p else n - 1 - p
  }

  /** One more visit. */
  function Extend(kind: Kind, before: Swept, i: nat, name: string, replies: Replies, k: nat, rt: Rt): Swept {
    var here := Visit(kind, i, name, replies, k + |before.log|, rt);
    Swept(before.failures + here.failures, before.log + here.log)
  }

  /** The first `m` visits over all providers, one after the other. */
  function Sweep(kind: Kind, names: seq<string>, m: nat, replies: Replies, k: nat, rt: Rt): Swept
    requires m <= |names|
    decreases m
  {
    if m == 0 then Swept([], [])
    else Extend(kind, Sweep(kind, names, m - 1, replies, k, rt), At(kind, |names|, m - 1),
                names[At(kind, |names|, m - 1)], replies, k, rt)
  }

  predicate Answered(call: Call, at: nat, verb: Verb, kind: Kind) {
    call.at == at && call.verb == verb && Good(kind, call.reply)
  }

  /** The first `m` of `n` providers were each applied and then verified, with the wanted status, and
      nothing else was called. */
  predicate Verified(kind: Kind, n: nat, m: nat, log: seq<Call>)
    requires m <= n
    decreases m
  {
    if m == 0 then log == []
    else
      && |log| >= 2
      && Answered(log[|log| - 2], At(kind, n, m - 1), kind.Apply(), kind)
      && Answered(log[|log| - 1], At(kind, n, m - 1), kind.Verify(), kind)
      && Verified(kind, n, m - 1, log[..|log| - 2])
  }

  lemma {:induction false} VerifiedLength(kind: Kind, n: nat, m: nat, log: seq<Call>)
    requires m <= n
    ensures Verified(kind, n, m, log) ==> |log| == 2 * m
  {
    if m > 0 && |log| >= 2 {
      VerifiedLength(kind, n, m - 1, log[..|log| - 2]);
    }
  }

  /** Adding one visit keeps the log verified exactly when the visit reports no failure. */
  lemma {:induction false} VerifiedVisit(kind: Kind, n: nat, m: nat, before: seq<Call>, here: Swept, name: string,
                                         replies: Replies, k: nat, rt: Rt)
    requires m < n && |before| <= 2 * m
    requires here == Visit(kind, At(kind, n, m), name, replies, k, rt)
    ensures Verified(kind, n, m + 1, before + here.log) <==> here.failures == [] && Verified(kind, n, m, before)
  {
    var log := before + here.log;
    VerifiedLength(kind, n, m + 1, log);
    if |here.log| == 2 {
      assert log[..|log| - 2] == before;
    }
  }

  lemma {:induction false} SweepCounts(kind: Kind, names: seq<string>, m: nat, replies: Replies, k: nat, rt: Rt)
    requires m <= |names|
    ensures var s := Sweep(kind, names, m, replies, k, rt);
            && |s.failures| <= m <= |s.log| <= 2 * m
            && (forall i :: 0 <= i < |s.log| ==> s.log[i].seen == rt)
  {
    if m > 0 {
      SweepCounts(kind, names, m - 1, replies, k, rt);
    }
  }

  lemma {:induction false} VerifiedOnward(kind: Kind, n: nat, m: nat, before: Swept, name: string, replies: Replies,
                                          k: nat, rt: Rt)
    requires m < n && |before.log| <= 2 * m
    requires before.failures == [] <==> Verified(kind, n, m, before.log)
    ensures var s := Extend(kind, before, At(kind, n, m), name, replies, k, rt);
            s.failures == [] <==> Verified(kind, n, m + 1, s.log)
  {
    var here := Visit(kind, At(kind, n, m), name, replies, k + |before.log|, rt);
    VerifiedVisit(kind, n, m, before.log, here, name, replies, k + |before.log|, rt);
  }

  lemma {:induction false} SweepVerified(kind: Kind, names: seq<string>, m: nat, replies: Replies, k: nat, rt: Rt)
    requires m <= |names|
    ensures var s := Sweep(kind, names, m, replies, k, rt); s.failures == [] <==> Verified(kind, |names|, m, s.log)
  {
    if m > 0 {
      var p := m - 1;
      var before, i := Sweep(kind, names, p, replies, k, rt), At(kind, |names|, p);
      SweepVerified(kind, names, p, replies, k, rt);
      SweepCounts(kind, names, p, replies, k, rt);
      VerifiedOnward(kind, |names|, p, before, names[i], replies, k, rt);
      assert Sweep(kind, names, m, replies, k, rt) == Extend(kind, before, i, names[i], replies, k, rt);
    }
  }

  /** A sweep reports no failure exactly when every provider was applied and verified; otherwise it
      reports at most one failure a provider, and every call was made in the same runtime state. */
  lemma {:induction false} SweepReports(kind: Kind, names: seq<string>, m: nat, replies: Replies, k: nat, rt: Rt)
    requires m <= |names|
    ensures var s := Sweep(kind, names, m, replies, k, rt);
            && (s.failures == [] <==> Verified(kind, |names|, m, s.log))
            && |s.failures| <= m <= |s.log| <= 2 * m
            && (forall i :: 0 <= i < |s.log| ==> s.log[i].seen == rt)
  {
    SweepCounts(kind, names, m, replies, k, rt);
    SweepVerified(kind, names, m, replies, k, rt);
  }

  /** A verified log, call by call. */
  lemma {:induction false} VerifiedCalls(kind: Kind, n: nat, m: nat, log: seq<Call>)
    requires m <= n
    ensures Verified(kind, n, m, log) <==>
              && |log| == 2 * m
              && forall q :: 0 <= q < |log| ==>
                   Answered(log[q], At(kind, n, q / 2), if q % 2 == 0 then kind.Apply() else kind.Verify(), kind)
  {
    VerifiedLength(kind, n, m, log);
    if m > 0 && |log| == 2 * m {
      var front := log[..|log| - 2];
      VerifiedCalls(kind, n, m - 1, front);
      assert forall q :: 0 <= q < |front| ==> log[q] == front[q];
      assert (|log| - 2) / 2 == (|log| - 1) / 2 == m - 1;
    }
  }

  /** The provider answered the call with the status. */
  predicate Did(call: Call, at: int, verb: Verb, status: Status) {
    call.at == at && call.verb == verb && call.reply.Answer? && call.reply.status == status
  }

  predicate Reaches(calls: seq<Call>, i: nat, verb: Verb, status: Status) {
    exists q :: 0 <= q < |calls| && Did(calls[q], i, verb, status)
  }

  /** Each of the `n` providers has answered both calls with the status. */
  predicate Reached(n: nat, calls: seq<Call>, first: Verb, second: Verb, status: Status) {
    forall i :: 0 <= i < n ==> Reaches(calls, i, first, status) && Reaches(calls, i, second, status)
  }

  /** A verified release took the last provider first: released, and right after that verified as released;
      then the one before it, down to the first. */
  lemma {:induction false} ReleaseInReverse(n: nat, calls: seq<Call>)
    ensures Verified(Release, n, n, calls) <==>
              && |calls| == 2 * n
              && forall q :: 0 <= q < |calls| ==>
                   Did(calls[q], n - 1 - q / 2, if q % 2 == 0 then DoRelease else VerifyReleased, Released)
    ensures Verified(Release, n, n, calls) ==> Reached(n, calls, DoRelease, VerifyReleased, Released)
  {
    VerifiedCalls(Release, n, n, calls);
    if Verified(Release, n, n, calls) {
      forall i | 0 <= i < n
        ensures Reaches(calls, i, DoRelease, Released) && Reaches(calls, i, VerifyReleased, Released)
      {
        var q := 2 * (n - 1 - i);
        assert Did(calls[q], i, DoRelease, Released) && Did(calls[q + 1], i, VerifyReleased, Released);
      }
    }
  }

  /** A verified containment took the providers in the order they were configured. */
  lemma {:induction false} ContainmentInOrder(n: nat, calls: seq<Call>)
    ensures Verified(Containment, n, n, calls) <==>
              && |calls| == 2 * n
              && forall q :: 0 <= q < |calls| ==>
                   Did(calls[q], q / 2, if q % 2 == 0 then DoContain else VerifyContained, Enforced)
    ensures Verified(Containment, n, n, calls) ==> Reached(n, calls, DoContain, VerifyContained, Enforced)
  {
    VerifiedCalls(Containment, n, n, calls);
    if Verified(Containment, n, n, calls) {
      forall i | 0 <= i < n
        ensures Reaches(calls, i, DoContain, Enforced) && Reaches(calls, i, VerifyContained, Enforced)
      {
        var q := 2 * i;
        assert Did(calls[q], i, DoContain, Enforced) && Did(calls[q + 1], i, VerifyContained, Enforced);
      }
    }
  }

  /** Every one of `n` providers was applied and verified, and nothing else was called, while the runtime
      could not execute. */
  predicate Confirms(kind: Kind, n: nat, calls: seq<Call>) {
    Verified(kind, n, n, calls) && forall i :: 0 <= i < |calls| ==> calls[i].seen.state != Active
  }

  /** Each of the `n` providers has been released and verified, the last first, all of it over the runtime
      `rt`; while the runtime could not execute exactly if it was stopped, or there is no provider. */
  predicate ReleasedOver(rt: Rt, n: nat, calls: seq<Call>) {
    && Verified(Release, n, n, calls)
    && Reached(n, calls, DoRelease, VerifyReleased, Released)
    && (forall i :: 0 <= i < |calls| ==> calls[i].seen == rt)
    && (Confirms(Release, n, calls) <==> n == 0 || rt.state != Active)
  }

  /** A release reports no failure exactly when it has done all that. */
  lemma {:induction false} SweepReleases(names: seq<string>, replies: Replies, k: nat, rt: Rt)
    ensures var s := Sweep(Release, names, |names|, replies, k, rt);
            s.failures == [] <==> ReleasedOver(rt, |names|, s.log)
  {
    SweepReports(Release, names, |names|, replies, k, rt);
    ReleaseInReverse(|names|, Sweep(Release, names, |names|, replies, k, rt).log);
  }

  /** Over a stopped runtime a sweep confirms exactly when it reports no failure. */
  lemma {:induction false} SweepConfirms(kind: Kind, names: seq<string>, replies: Replies, k: nat, rt: Rt)
    requires !rt.CanExecute()
    ensures var s := Sweep(kind, names, |names|, replies, k, rt);
            s.failures == [] <==> Confirms(kind, |names|, s.log)
  {
    SweepReports(kind, names, |names|, replies, k, rt);
  }

  // ----- a sweep of which some part failed -----

  /** The call did not come back with what containment, or release, is after. */
  predicate Declined(call: Call) {
    !call.reply.Answer?
    || call.reply.status != if call.verb in {DoContain, VerifyContained} then Enforced else Released
  }

  /** The providers asked to do `verb`, in order. */
  function Asked(calls: seq<Call>, verb: Verb): seq<nat> {
    if calls == [] then []
    else
      var last := calls[|calls| - 1];
      Asked(calls[..|calls| - 1], verb) + if last.verb == verb then [last.at] else []
  }

  lemma {:induction false} AskedAppend(front: seq<Call>, back: seq<Call>, verb: Verb)
    ensures Asked(front + back, verb) == Asked(front, verb) + Asked(back, verb)
    decreases |back|
  {
    if back == [] {
      assert front + back == front;
    } else {
      assert (front + back)[..|front + back| - 1] == front + back[..|back| - 1];
      AskedAppend(front, back[..|back| - 1], verb);
    }
  }

  /** The declined calls, in order, as failures of their providers. */
  function Declines(names: seq<string>, calls: seq<Call>): seq<Failure> {
    if calls == [] then []
    else
      var last := calls[|calls| - 1];
      Declines(names, calls[..|calls| - 1])
      + if last.at < |names| && Declined(last) then [Failure(names[last.at], last.verb, last.reply)] else []
  }

  lemma {:induction false} DeclinesAppend(names: seq<string>, front: seq<Call>, back: seq<Call>)
    ensures Declines(names, front + back) == Declines(names, front) + Declines(names, back)
    decreases |back|
  {
    if back == [] {
      assert front + back == front;
    } else {
      assert (front + back)[..|front + back| - 1] == front + back[..|back| - 1];
      DeclinesAppend(names, front, back[..|back| - 1]);
    }
  }

  /** A provider is verified right after it has agreed, and only then. */
  predicate Followed(calls: seq<Call>, first: Verb, second: Verb) {
    && (calls != [] ==> calls[0].verb == first)
    && (forall q :: 0 <= q < |calls| ==> calls[q].verb in {first, second})
    && (forall q :: 0 < q < |calls| ==>
          (calls[q].verb == second <==> calls[q - 1].verb == first && !Declined(calls[q - 1])))
    && (forall q :: 0 < q < |calls| && calls[q].verb == second ==> calls[q].at == calls[q - 1].at)
    && (calls != [] && calls[|calls| - 1].verb == first ==> Declined(calls[|calls| - 1]))
  }

  /** What one visit adds to each of these. */
  lemma {:induction false} VisitAdds(kind: Kind, i: nat, names: seq<string>, replies: Replies, k: nat, rt: Rt)
    requires i < |names|
    ensures var here := Visit(kind, i, names[i], replies, k, rt);
            && (forall q :: 0 <= q < |here.log| ==> here.log[q].at == i && here.log[q].reply == ReplyTo(replies, k + q))
            && Asked(here.log, kind.Apply()) == [i] && Declines(names, here.log) == here.failures
            && Followed(here.log, kind.Apply(), kind.Verify())
  {
    var here := Visit(kind, i, names[i], replies, k, rt);
    var one := here.log[..1];
    assert one[..0] == [];
    assert Asked(one, kind.Apply()) == [i];
    assert Declines(names, one) == if Declined(one[0]) then [Failure(names[i], one[0].verb, one[0].reply)] else [];
    if |here.log| == 2 {
      assert here.log[..|here.log| - 1] == one;
    } else {
      assert here.log == one;
    }
  }

  /** The first `m` providers of a sweep have been asked, in order; each was verified exactly if it agreed;
      and the failures are the declined calls. */
  predicate AsksEach(kind: Kind, names: seq<string>, m: nat, s: Swept) {
    var asked := Asked(s.log, kind.Apply());
    && |asked| == m && (forall p :: 0 <= p < m ==> asked[p] == if kind == Release then |names| - 1 - p else p)
    && (forall q :: 0 <= q < |s.log| ==> s.log[q].at < |names|)
    && s.failures == Declines(names, s.log)
    && Followed(s.log, kind.Apply(), kind.Verify())
  }

  lemma {:induction false} AsksJoin(kind: Kind, names: seq<string>, m: nat, before: Swept, here: Swept)
    requires m < |names| && AsksEach(kind, names, m, before)
    requires Asked(here.log, kind.Apply()) == [At(kind, |names|, m)]
    requires forall q :: 0 <= q < |here.log| ==> here.log[q].at < |names|
    requires here.failures == Declines(names, here.log) && Followed(here.log, kind.Apply(), kind.Verify())
    ensures AsksEach(kind, names, m + 1, Swept(before.failures + here.failures, before.log + here.log))
  {
    AskedAppend(before.log, here.log, kind.Apply());
    DeclinesAppend(names, before.log, here.log);
    FollowedAppend(before.log, here.log, kind.Apply(), kind.Verify());
  }

  lemma {:induction false} AsksOneMore(kind: Kind, names: seq<string>, m: nat, before: Swept, replies: Replies, k: nat,
                                       rt: Rt)
    requires m < |names| && AsksEach(kind, names, m, before)
    ensures AsksEach(kind, names, m + 1,
                     Extend(kind, before, At(kind, |names|, m), names[At(kind, |names|, m)], replies, k, rt))
  {
    var i := At(kind, |names|, m);
    VisitAdds(kind, i, names, replies, k + |before.log|, rt);
    AsksJoin(kind, names, m, before, Visit(kind, i, names[i], replies, k + |before.log|, rt));
  }

  /** Whatever the providers answer, each is asked exactly once, in order, whoever else declines. */
  lemma {:induction false} SweepAsks(kind: Kind, names: seq<string>, m: nat, replies: Replies, k: nat, rt: Rt)
    requires m <= |names|
    ensures AsksEach(kind, names, m, Sweep(kind, names, m, replies, k, rt))
  {
    if m > 0 {
      SweepAsks(kind, names, m - 1, replies, k, rt);
      AsksOneMore(kind, names, m - 1, Sweep(kind, names, m - 1, replies, k, rt), replies, k, rt);
    }
  }

  lemma FollowedAppend(front: seq<Call>, back: seq<Call>, first: Verb, second: Verb)
    requires Followed(front, first, second) && Followed(back, first, second) && first != second
    ensures Followed(front + back, first, second)
  {
    var all := front + back;
    forall q | 0 < q < |all|
      ensures all[q].verb == second <==> all[q - 1].verb == first && !Declined(all[q - 1])
    {
      if q > |front| {
        assert all[q] == back[q - |front|] && all[q - 1] == back[q - |front| - 1];
      } else if q == |front| {
        assert all[q] == back[0];
      }
    }
  }

  /** The stages a containment sweep reports: one for every provider whose verification came back ENFORCED,
      in order. */
  function Verifications(names: seq<string>, calls: seq<Call>): seq<string> {
    if calls == [] then []
    else
      var last := calls[|calls| - 1];
      Verifications(names, calls[..|calls| - 1])
      + if last.at < |names| && last.verb == VerifyContained && !Declined(last)
        then ["enforcer:" + names[last.at] + ":verified"] else []
  }

  lemma {:induction false} VerificationsAppend(names: seq<string>, front: seq<Call>, back: seq<Call>)
    ensures Verifications(names, front + back) == Verifications(names, front) + Verifications(names, back)
    decreases |back|
  {
    if back == [] {
      assert front + back == front;
    } else {
      assert (front + back)[..|front + back| - 1] == front + back[..|back| - 1];
      VerificationsAppend(names, front, back[..|back| - 1]);
    }
  }

  /** A visit that reports no failure adds the provider's stage. */
  lemma {:induction false} VisitVerifies(i: nat, names: seq<string>, replies: Replies, k: nat, rt: Rt)
    requires i < |names|
    ensures var here := Visit(Containment, i, names[i], replies, k, rt);
            Verifications(names, here.log) == if here.failures == [] then ["enforcer:" + names[i] + ":verified"] else []
  {
    var here := Visit(Containment, i, names[i], replies, k, rt);
    var one := here.log[..1];
    assert one[..0] == [];
    assert Verifications(names, one) == [];
    assert here.log[..|here.log| - 1] == if |here.log| == 2 then one else [];
  }

  /** The stages after one more visit, which began when `at` calls had been made. */
  lemma {:induction false} StageOfVisit(names: seq<string>, m: nat, replies: Replies, k: nat, rt: Rt, at: nat,
                                        stages: seq<string>, failure: seq<Failure>)
    requires m < |names| && at == k + |Sweep(Containment, names, m, replies, k, rt).log|
    requires stages == Verifications(names, Sweep(Containment, names, m, replies, k, rt).log)
    requires failure == Visit(Containment, m, names[m], replies, at, rt).failures
    ensures stages + (if failure == [] then ["enforcer:" + names[m] + ":verified"] else [])
         == Verifications(names, Sweep(Containment, names, m + 1, replies, k, rt).log)
  {
    var before := Sweep(Containment, names, m, replies, k, rt);
    var here := Visit(Containment, m, names[m], replies, at, rt);
    VisitVerifies(m, names, replies, at, rt);
    VerificationsAppend(names, before.log, here.log);
    assert Sweep(Containment, names, m + 1, replies, k, rt).log == before.log + here.log;
  }

  // ----- reports -----

  /** A stage of containment other than the providers: credentials, kernel egress, open connections
      or processes, if configured, and whether it raises. */
  datatype Hook = Hook(stage: string, raises: Option<string>)

  datatype Fault = StageRaised(stage: string, what: string) | ProviderFailed(failure: Failure)

  datatype ContainmentReport = ContainmentReport(
    agentId: string,
    epoch: nat,
    stages: seq<string>,
    failures: seq<Fault>,
    persistenceFailures: seq<string>,
    externalVerified: bool)
  {
    predicate Complete() {
      failures == []
    }

    predicate Certified() {
      Complete() && externalVerified
    }

    predicate Durable() {
      persistenceFailures == []
    }

    function WithPersistenceFailure(failure: string): ContainmentReport {
      this.(persistenceFailures := persistenceFailures + [failure])
    }
  }

  datatype RecoveryEvent =
    | RecoveryRequested
    | ExternalReleaseFailed
    | ExternalReleaseVerified
    | RuntimeRecoveryFailed
    | RuntimeRecoveryComplete
    | RecontainmentVerified
    | RecontainmentDegraded

  datatype RecoveryFault = NotReleased(failures: seq<Failure>) | NotActivated(error: RuntimeError)

  datatype RecoveryReport = RecoveryReport(
    agentId: string,
    containedEpoch: nat,
    events: seq<RecoveryEvent>,
    fault: Option<RecoveryFault>,
    recontainmentFailures: seq<Failure>,
    recoveredEpoch: Option<nat>)

  function HookStages(hooks: seq<Hook>): seq<string> {
    if hooks == [] then []
    else
      var h := hooks[|hooks| - 1];
      HookStages(hooks[..|hooks| - 1]) + if h.raises.None? then [h.stage] else []
  }

  function HookFaults(hooks: seq<Hook>): seq<Fault> {
    if hooks == [] then []
    else
      var h := hooks[|hooks| - 1];
      HookFaults(hooks[..|hooks| - 1]) + if h.raises.Some? then [StageRaised(h.stage, h.raises.value)] else []
  }

  predicate Raised(hooks: seq<Hook>, stage: string, what: string) {
    exists i :: 0 <= i < |hooks| && hooks[i].stage == stage && hooks[i].raises == Some(what)
  }

  predicate Passed(hooks: seq<Hook>, stage: string) {
    exists i :: 0 <= i < |hooks| && hooks[i].stage == stage && hooks[i].raises == None
  }

  lemma {:induction false} FaultReported(hooks: seq<Hook>, f: Fault)
    ensures f in HookFaults(hooks) <==> f.StageRaised? && Raised(hooks, f.stage, f.what)
  {
    if hooks != [] {
      var front := hooks[..|hooks| - 1];
      FaultReported(front, f);
      if f.StageRaised? && Raised(front, f.stage, f.what) {
        var i :| 0 <= i < |front| && front[i].stage == f.stage && front[i].raises == Some(f.what);
        assert hooks[i] == front[i];
      }
    }
  }

  lemma {:induction false} StageReported(hooks: seq<Hook>, x: string)
    ensures x in HookStages(hooks) <==> Passed(hooks, x)
  {
    if hooks != [] {
      var front := hooks[..|hooks| - 1];
      StageReported(front, x);
      if Passed(front, x) {
        var i :| 0 <= i < |front| && front[i].stage == x && front[i].raises == None;
        assert hooks[i] == front[i];
      }
    }
  }

  /** Every hook is reported once, on one side or the other. */
  lemma {:induction false} HooksCounted(hooks: seq<Hook>)
    ensures |HookFaults(hooks)| + |HookStages(hooks)| == |hooks|
    ensures HookFaults(hooks) == [] <==> forall i :: 0 <= i < |hooks| ==> hooks[i].raises.None?
  {
    if hooks != [] {
      HooksCounted(hooks[..|hooks| - 1]);
    }
  }

  /** The stages, like the faults, come in the order of the hooks. */
  lemma {:induction false} HooksInOrder(front: seq<Hook>, back: seq<Hook>)
    ensures HookFaults(front + back) == HookFaults(front) + HookFaults(back)
    ensures HookStages(front + back) == HookStages(front) + HookStages(back)
    decreases |back|
  {
    if back == [] {
      assert front + back == front;
    } else {
      assert (front + back)[..|front + back| - 1] == front + back[..|back| - 1];
      HooksInOrder(front, back[..|back| - 1]);
    }
  }

  function ProviderFaults(failures: seq<Failure>): (faults: seq<Fault>)
    ensures |faults| == |failures|
    ensures forall i :: 0 <= i < |failures| ==> faults[i] == ProviderFailed(failures[i])
  {
    seq(|failures|, i requires 0 <= i < |failures| => ProviderFailed(failures[i]))
  }

  function ReportOf(names: seq<string>, hooks: seq<Hook>, swept: Swept, rt: Rt): ContainmentReport {
    ContainmentReport(
      rt.agentId, rt.epoch,
      ["runtime_fenced", "capabilities_revoked"] + HookStages(hooks) + Verifications(names, swept.log),
      HookFaults(hooks) + ProviderFaults(swept.failures),
      [],
      names != [] && swept.failures == [])
  }

  /** What a report says of the hooks and of the calls the providers got. It is complete exactly when no hook
      raised and every provider was applied and verified, and certified exactly when, besides, there is a
      provider at all; every hook, every verified provider and every declined call is in it, and nothing
      else. */
  ghost predicate Accounts(report: ContainmentReport, names: seq<string>, hooks: seq<Hook>, calls: seq<Call>) {
    && (report.failures == [] <==>
          (forall i :: 0 <= i < |hooks| ==> hooks[i].raises.None?) && Confirms(Containment, |names|, calls))
    && (report.externalVerified <==> names != [] && Confirms(Containment, |names|, calls))
    && (forall f :: f in report.failures <==>
          if f.ProviderFailed? then f.failure in Declines(names, calls) else Raised(hooks, f.stage, f.what))
    && |report.stages| >= 2 && report.stages[..2] == ["runtime_fenced", "capabilities_revoked"]
    && (forall x :: x in report.stages[2..] <==> Passed(hooks, x) || x in Verifications(names, calls))
  }

  lemma {:induction false} FaultsAccounted(hooks: seq<Hook>, failures: seq<Failure>, f: Fault)
    ensures f in HookFaults(hooks) + ProviderFaults(failures) <==>
              if f.ProviderFailed? then f.failure in failures else Raised(hooks, f.stage, f.what)
  {
    var faults := ProviderFaults(failures);
    FaultReported(hooks, f);
    if f.ProviderFailed? && f.failure in failures {
      var i :| 0 <= i < |failures| && failures[i] == f.failure;
      assert faults[i] in faults;
    }
  }

  lemma {:induction false} Accounted(names: seq<string>, hooks: seq<Hook>, swept: Swept, rt: Rt)
    requires swept.failures == Declines(names, swept.log)
    requires swept.failures == [] <==> Confirms(Containment, |names|, swept.log)
    ensures Accounts(ReportOf(names, hooks, swept, rt), names, hooks, swept.log)
  {
    var report := ReportOf(names, hooks, swept, rt);
    HooksCounted(hooks);
    assert report.failures == [] <==> HookFaults(hooks) == [] && swept.failures == [];
    forall f ensures f in report.failures <==>
                       if f.ProviderFailed? then f.failure in swept.failures else Raised(hooks, f.stage, f.what)
    {
      FaultsAccounted(hooks, swept.failures, f);
    }
    assert report.stages[2..] == HookStages(hooks) + Verifications(names, swept.log);
    forall x ensures x in report.stages[2..] <==> Passed(hooks, x) || x in Verifications(names, swept.log) {
      StageReported(hooks, x);
    }
  }

  lemma HooksAccounted(report: ContainmentReport, names: seq<string>, hooks: seq<Hook>, calls: seq<Call>)
    requires Accounts(report, names, hooks, calls)
    ensures forall i :: 0 <= i < |hooks| ==>
              if hooks[i].raises.Some? then StageRaised(hooks[i].stage, hooks[i].raises.value) in report.failures
              else hooks[i].stage in report.stages
  {
    forall i | 0 <= i < |hooks|
      ensures if hooks[i].raises.Some? then StageRaised(hooks[i].stage, hooks[i].raises.value) in report.failures
              else hooks[i].stage in report.stages
    {
      if hooks[i].raises.Some? {
        assert Raised(hooks, hooks[i].stage, hooks[i].raises.value);
      } else {
        assert Passed(hooks, hooks[i].stage);
        assert hooks[i].stage in report.stages[2..];
      }
    }
  }

  // ----- the controller -----

  class ContainmentController {
    const runtime: Runtime
    const providers: seq<string>
    const replies: Replies
    var capabilities: set<string>
    /** Every provider call made so far, in order. */
    var log: seq<Call>
    var lastReport: Option<ContainmentReport>
    var lastRecoveryReport: Option<RecoveryReport>

    constructor (runtime: Runtime, providers: seq<string>, replies: Replies, capabilities: set<string>)
      ensures this.runtime == runtime && this.providers == providers && this.replies == replies
      ensures this.capabilities == capabilities && log == []
      ensures lastReport.None? && lastRecoveryReport.None?
    {
      this.runtime := runtime;
      this.providers := providers;
      this.replies := replies;
      this.capabilities := capabilities;
      log := [];
      lastReport := None;
      lastRecoveryReport := None;
    }

    ghost predicate Valid()
      reads this, runtime, runtime.ids
    {
      runtime.Valid()
    }

    /** What a sweep over all the providers does while the runtime is `rt`, once `k` calls have been
        made. */
    function SweepOn(kind: Kind, k: nat, rt: Rt): Swept {
      Sweep(kind, providers, |providers|, replies, k, rt)
    }

    /** What a sweep over all the providers would do from here. */
    function Sweeping(kind: Kind): Swept
      reads this, runtime
    {
      SweepOn(kind, |log|, runtime.View())
    }

    /** The report of a containment that stopped the runtime at `rt` after `k` provider calls. */
    function Reported(hooks: seq<Hook>, k: nat, rt: Rt): ContainmentReport {
      ReportOf(providers, hooks, SweepOn(Containment, k, rt), rt)
    }

    lemma {:induction false} ReportAccounts(hooks: seq<Hook>, k: nat, rt: Rt)
      requires !rt.CanExecute()
      ensures Accounts(Reported(hooks, k, rt), providers, hooks, SweepOn(Containment, k, rt).log)
    {
      SweepAsks(Containment, providers, |providers|, replies, k, rt);
      SweepConfirms(Containment, providers, replies, k, rt);
      Accounted(providers, hooks, SweepOn(Containment, k, rt), rt);
    }

    method Ask(i: nat, verb: Verb) returns (reply: Reply)
      requires i < |providers|
      modifies `log
      ensures reply == ReplyTo(replies, |old(log)|)
      ensures log == old(log) + [Call(i, verb, reply, runtime.View())]
    {
      reply := ReplyTo(replies, |log|);
      log := log + [Call(i, verb, reply, runtime.View())];
    }

    /** One provider: apply, and verify unless that already failed. At most one failure. */
    method Enforce(kind: Kind, i: nat) returns (failure: seq<Failure>)
      requires i < |providers|
      modifies `log
      ensures var here := Visit(kind, i, providers[i], replies, |old(log)|, runtime.View());
              log == old(log) + here.log && failure == here.failures
      ensures |failure| <= 1
    {
      var first := Ask(i, kind.Apply());
      if !Good(kind, first) {
        return [Failure(providers[i], kind.Apply(), first)];
      }
      var second := Ask(i, kind.Verify());
      if !Good(kind, second) {
        return [Failure(providers[i], kind.Verify(), second)];
      }
      return [];
    }

    /** The next provider of a sweep that began when the calls made were `start`. */
    method EnforceNext(kind: Kind, i: nat, ghost m: nat, ghost start: seq<Call>) returns (failure: seq<Failure>)
      requires m < |providers| && i == At(kind, |providers|, m)
      requires log == start + Sweep(kind, providers, m, replies, |start|, runtime.View()).log
      modifies `log
      ensures log == start + Sweep(kind, providers, m + 1, replies, |start|, runtime.View()).log
      ensures Sweep(kind, providers, m, replies, |start|, runtime.View()).failures + failure
           == Sweep(kind, providers, m + 1, replies, |start|, runtime.View()).failures
      ensures failure == Visit(kind, i, providers[i], replies, |old(log)|, runtime.View()).failures
      ensures |failure| <= 1
    {
      ghost var before := Sweep(kind, providers, m, replies, |start|, runtime.View());
      ghost var here := Visit(kind, i, providers[i], replies, |log|, runtime.View());
      failure := Enforce(kind, i);
      assert start + before.log + here.log == start + (before.log + here.log);
    }

    method ReleaseEnforcers() returns (failures: seq<Failure>)
      modifies `log
      ensures failures == old(Sweeping(Release)).failures
      ensures log == old(log) + old(Sweeping(Release)).log
      ensures AsksEach(Release, providers, |providers|, Swept(failures, log[|old(log)|..]))
    {
      SweepAsks(Release, providers, |providers|, replies, |log|, runtime.View());
      failures := [];
      var left := |providers|;
      ghost var visited := 0;
      while left > 0
        invariant 0 <= left && left + visited == |providers|
        invariant var s := Sweep(Release, providers, visited, replies, |old(log)|, runtime.View());
                  failures == s.failures && log == old(log) + s.log
        decreases left
      {
        left := left - 1;
        var failure := EnforceNext(Release, left, visited, old(log));
        failures := failures + failure;
        visited := visited + 1;
      }
      assert log[|old(log)|..] == old(Sweeping(Release)).log;
    }

    method RecontainEnforcers() returns (failures: seq<Failure>)
      modifies `log
      ensures failures == old(Sweeping(Containment)).failures
      ensures log == old(log) + old(Sweeping(Containment)).log
      ensures AsksEach(Containment, providers, |providers|, Swept(failures, log[|old(log)|..]))
    {
      SweepAsks(Containment, providers, |providers|, replies, |log|, runtime.View());
      failures := [];
      for i := 0 to |providers|
        invariant var s := Sweep(Containment, providers, i, replies, |old(log)|, runtime.View());
                  failures == s.failures && log == old(log) + s.log
      {
        var failure := EnforceNext(Containment, i, i, old(log));
        failures := failures + failure;
      }
      assert log[|old(log)|..] == old(Sweeping(Containment)).log;
    }

    /** The next provider of a containment that began when the calls made were `start`, and the stages with
        its own if it is verified. */
    method ContainNext(i: nat, stages: seq<string>, ghost start: seq<Call>)
      returns (failure: seq<Failure>, longer: seq<string>)
      requires i < |providers|
      requires var s := Sweep(Containment, providers, i, replies, |start|, runtime.View());
               log == start + s.log && stages == Verifications(providers, s.log)
      modifies `log
      ensures var s := Sweep(Containment, providers, i + 1, replies, |start|, runtime.View());
              && log == start + s.log && longer == Verifications(providers, s.log)
              && Sweep(Containment, providers, i, replies, |start|, runtime.View()).failures + failure == s.failures
      ensures |longer| + |failure| == |stages| + 1 && |longer| >= |stages|
    {
      failure := EnforceNext(Containment, i, i, start);
      StageOfVisit(providers, i, replies, |start|, runtime.View(), |old(log)|, stages, failure);
      longer := stages;
      if failure == [] {
        longer := longer + ["enforcer:" + providers[i] + ":verified"];
      }
    }

    /** The providers' part of `contain`: the failures, and how many providers were verified. */
    method ContainEnforcers() returns (failures: seq<Failure>, stages: seq<string>, verified: nat)
      modifies `log
      ensures failures == old(Sweeping(Containment)).failures
      ensures log == old(log) + old(Sweeping(Containment)).log
      ensures stages == Verifications(providers, old(Sweeping(Containment)).log)
      ensures |stages| == verified && verified + |failures| == |providers|
    {
      failures, stages, verified := [], [], 0;
      for i := 0 to |providers|
        invariant var s := Sweep(Containment, providers, i, replies, |old(log)|, runtime.View());
                  failures == s.failures && log == old(log) + s.log && stages == Verifications(providers, s.log)
        invariant |stages| == verified && verified + |failures| == i
      {
        var failure, longer := ContainNext(i, stages, old(log));
        failures := failures + failure;
        if |longer| > |stages| {
          verified := verified + 1;
        }
        stages := longer;
      }
    }

    /** Credentials, kernel egress, connections and processes, each if configured. */
    method RunHooks(hooks: seq<Hook>) returns (stages: seq<string>, failures: seq<Fault>)
      ensures stages == HookStages(hooks) && failures == HookFaults(hooks)
    {
      stages, failures := [], [];
      for h := 0 to |hooks|
        invariant failures == HookFaults(hooks[..h]) && stages == HookStages(hooks[..h])
      {
        assert hooks[..h + 1][..h] == hooks[..h];
        if hooks[h].raises.None? {
          stages := stages + [hooks[h].stage];
        } else {
          failures := failures + [StageRaised(hooks[h].stage, hooks[h].raises.value)];
        }
      }
      assert hooks[..|hooks|] == hooks;
    }

    /** The runtime is stopped, and stays so whatever other threads do to it. */
    method FenceAndRevoke(race: seq<Op>)
      requires Valid() && Stops(race)
      modifies `capabilities, runtime, runtime.ids
      ensures Valid() && capabilities == {} && runtime.state != Active
      ensures runtime.Abs() == ApplyAll(Apply(old(runtime.Abs()), OpContain), race)
    {
      runtime.Contain();
      StopsCount(runtime.Abs(), race);
      runtime.PerformAll(race);
      capabilities := {};
    }

    /** The report of the later stages. */
    method EnforceAll(hooks: seq<Hook>) returns (report: ContainmentReport)
      requires runtime.state != Active
      modifies `log
      ensures log == old(log) + SweepOn(Containment, |old(log)|, runtime.View()).log
      ensures report == Reported(hooks, |old(log)|, runtime.View())
    {
      var hookStages, failures := RunHooks(hooks);
      var unenforced, verifications, verified := ContainEnforcers();
      report := ContainmentReport(runtime.agentId, runtime.epoch,
                                  ["runtime_fenced", "capabilities_revoked"] + hookStages + verifications,
                                  failures + ProviderFaults(unenforced), [], providers != []
                                    && verified == |providers|);
    }

    /** Fence first: whatever other threads do to the runtime afterwards (`race`), no provider is called
        while it could execute. Stages, failures and verification are exactly those of the hooks and of
        one sweep, and the report carries the epoch the race left. */
    method Contain(hooks: seq<Hook>, race: seq<Op>) returns (report: ContainmentReport)
      requires Valid() && Stops(race)
      modifies this, runtime, runtime.ids
      ensures Valid()
      ensures runtime.Abs() == ApplyAll(Apply(old(runtime.Abs()), OpContain), race)
      ensures capabilities == {} && lastReport == Some(report) && lastRecoveryReport == old(lastRecoveryReport)
      ensures runtime.state != Active
      ensures log == old(log) + SweepOn(Containment, |old(log)|, runtime.View()).log
      ensures report == Reported(hooks, |old(log)|, runtime.View())
      // What the report says of the hooks and of the calls just made.
      ensures report.agentId == runtime.agentId && report.epoch == runtime.epoch && report.persistenceFailures == []
      ensures var clean := forall i :: 0 <= i < |hooks| ==> hooks[i].raises.None?;
              var confirmed := Confirms(Containment, |providers|, log[|old(log)|..]);
              && (report.Complete() <==> clean && confirmed)
              && (report.Certified() <==> clean && confirmed && providers != [])
      ensures forall i :: 0 <= i < |hooks| ==>
                if hooks[i].raises.Some? then StageRaised(hooks[i].stage, hooks[i].raises.value) in report.failures
                else hooks[i].stage in report.stages
      ensures Accounts(report, providers, hooks, log[|old(log)|..])
    {
      FenceAndRevoke(race);
      report := EnforceAll(hooks);
      lastReport := Some(report);
      ReportAccounts(hooks, |old(log)|, runtime.View());
      assert log[|old(log)|..] == SweepOn(Containment, |old(log)|, runtime.View()).log;
      HooksAccounted(report, providers, hooks, log[|old(log)|..]);
    }

    /** A release, and what its calls show. */
    method ReleaseVerified() returns (failures: seq<Failure>, ghost calls: seq<Call>)
      modifies `log
      ensures failures == old(Sweeping(Release)).failures && calls == old(Sweeping(Release)).log
      ensures log == old(log) + calls
      ensures failures == [] <==> ReleasedOver(runtime.View(), |providers|, calls)
    {
      calls := Sweeping(Release).log;
      SweepReleases(providers, replies, |log|, runtime.View());
      failures := ReleaseEnforcers();
    }

    /** Recovery of the controller alone, which holds no lock: `race` is what other threads do to the
        runtime between the release and the activation. On return every provider had been released and
        verified RELEASED before that, and while the runtime could not execute exactly if it was stopped
        when the call began. On a raise the call itself has not touched the runtime and the calls made after
        `release` are of re-containment: an empty list of re-containment failures means that every provider
        is applied and verified ENFORCED again. */
    method Recover(capability: Id, expected: int, race: seq<Op>)
      returns (r: Result<nat, RecoveryFault>, ghost release: seq<Call>)
      requires Valid()
      modifies this, runtime, runtime.ids
      ensures Valid() && capabilities == old(capabilities) && lastReport == old(lastReport)
      ensures lastRecoveryReport.Some? && release == old(Sweeping(Release)).log
      ensures var w := ApplyAll(old(runtime.Abs()), race);
              && (r.Ok? <==>
                    && old(Sweeping(Release)).failures == []
                    && w.rt.capability == capability && w.rt.state == Contained && w.rt.epoch == expected)
              && (r.Ok? ==> runtime.Abs() == Apply(w, OpRecover(capability, expected)))
              && (r.Err? ==> runtime.Abs() == if r.error.NotActivated? then w else old(runtime.Abs()))
      ensures r.Ok? ==>
                && r.value == expected + 1
                && runtime.state == Active && runtime.epoch == r.value
                && log == old(log) + release && ReleasedOver(old(runtime.View()), |providers|, release)
                && lastRecoveryReport.value
                   == RecoveryReport(runtime.agentId, old(runtime.epoch),
                                     [RecoveryRequested, ExternalReleaseVerified, RuntimeRecoveryComplete], None, [],
                                     Some(r.value))
      ensures r.Err? ==>
                && (if old(Sweeping(Release)).failures == []
                    then r.error.NotActivated?
                    else r.error == NotReleased(old(Sweeping(Release)).failures))
                && Aborted(lastRecoveryReport.value, old(runtime.epoch),
                           [RecoveryRequested] + if r.error.NotReleased? then [ExternalReleaseFailed]
                                                 else [ExternalReleaseVerified, RuntimeRecoveryFailed], r.error)
                && Recontained(lastRecoveryReport.value.recontainmentFailures, old(log) + release)
    {
      var containedEpoch := runtime.epoch;
      var events := [RecoveryRequested];
      var released;
      released, release := ReleaseVerified();
      if released != [] {
        events := events + [ExternalReleaseFailed];
        Compensate(containedEpoch, events, NotReleased(released));
        return Err(NotReleased(released)), release;
      }
      events := events + [ExternalReleaseVerified];
      runtime.PerformAll(race);
      r := Activate(containedEpoch, events, capability, expected);
    }

    /** The part after the release. */
    method Activate(containedEpoch: nat, soFar: seq<RecoveryEvent>, capability: Id, expected: int)
      returns (r: Result<nat, RecoveryFault>)
      requires Valid()
      modifies `log, `lastRecoveryReport, runtime, runtime.ids
      ensures Valid() && lastRecoveryReport.Some?
      ensures r.Ok? <==> Effective(old(runtime.View()), OpRecover(capability, expected))
      ensures r.Ok? ==>
                && r.value == expected + 1 == runtime.epoch
                && runtime.Abs() == Apply(old(runtime.Abs()), OpRecover(capability, expected))
                && log == old(log)
                && lastRecoveryReport.value
                   == RecoveryReport(runtime.agentId, containedEpoch, soFar + [RuntimeRecoveryComplete], None, [],
                                     Some(r.value))
      ensures r.Err? ==>
                && runtime.Abs() == old(runtime.Abs()) && r.error.NotActivated?
                && Aborted(lastRecoveryReport.value, containedEpoch, soFar + [RuntimeRecoveryFailed], r.error)
                && Recontained(lastRecoveryReport.value.recontainmentFailures, old(log))
    {
      var activated := runtime.Recover(capability, expected);
      if activated.Err? {
        Compensate(containedEpoch, soFar + [RuntimeRecoveryFailed], NotActivated(activated.error));
        return Err(NotActivated(activated.error));
      }
      lastRecoveryReport := Some(
        RecoveryReport(runtime.agentId, containedEpoch, soFar + [RuntimeRecoveryComplete], None, [],
                       Some(activated.value)));
      return Ok(activated.value);
    }

    /** Best-effort re-containment after a failed recovery, and the report of it. */
    method Compensate(containedEpoch: nat, events: seq<RecoveryEvent>, fault: RecoveryFault)
      modifies `log, `lastRecoveryReport
      ensures lastRecoveryReport.Some? && Aborted(lastRecoveryReport.value, containedEpoch, events, fault)
      ensures Recontained(lastRecoveryReport.value.recontainmentFailures, old(log))
    {
      ghost var s := Sweeping(Containment);
      SweepReports(Containment, providers, |providers|, replies, |log|, runtime.View());
      ContainmentInOrder(|providers|, s.log);
      var recontained := RecontainEnforcers();
      assert log[|old(log)|..] == s.log;
      lastRecoveryReport := Some(RecoveryReport(
        runtime.agentId, containedEpoch,
        events + [if recontained == [] then RecontainmentVerified else RecontainmentDegraded],
        Some(fault), recontained, None));
    }

    /** The report of a recovery that raises `fault`. */
    predicate Aborted(report: RecoveryReport, containedEpoch: nat, events: seq<RecoveryEvent>, fault: RecoveryFault) {
      && report.agentId == runtime.agentId && report.containedEpoch == containedEpoch
      && report.fault == Some(fault) && report.recoveredEpoch.None?
      && report.events
         == events + [if report.recontainmentFailures == [] then RecontainmentVerified else RecontainmentDegraded]
    }

    /** Since the calls made were `before`, the providers have been asked to contain, and there are no failures
        exactly when each is applied and verified again. */
    predicate Recontained(failures: seq<Failure>, before: seq<Call>)
      reads this
    {
      && |log| >= |before| && log[..|before|] == before
      && (failures == [] <==> Verified(Containment, |providers|, |providers|, log[|before|..]))
      && (failures == [] ==> Reached(|providers|, log[|before|..], DoContain, VerifyContained, Enforced))
    }
  }

  lemma OneReleased(replies: Replies, rt: Rt)
    requires replies == [Answer(Released, ""), Answer(Released, "")]
    ensures Sweep(Release, ["provider"], 1, replies, 0, rt).failures == []
    ensures Sweep(Release, ["provider"], 1, replies, 0, rt).log != []
  {
    assert Sweep(Release, ["provider"], 0, replies, 0, rt) == Swept([], []);
  }

  /** The input that shows the difference: a new runtime, whose recovery is asked for one epoch ahead and
      which another thread contains in between. The call returns, and its providers were released while
      the runtime could execute. */
  method ReleasedWhileExecutable(agentId: string, ids: IdSource)
    returns (controller: ContainmentController, r: Result<nat, RecoveryFault>)
    modifies ids
    ensures fresh(controller) && r == Ok(2)
    ensures controller.log != [] && forall i :: 0 <= i < |controller.log| ==> controller.log[i].seen.CanExecute()
  {
    var runtime := new Runtime(agentId, ids);
    controller := new ContainmentController(runtime, ["provider"], [Answer(Released, ""), Answer(Released, "")], {});
    OneReleased(controller.replies, runtime.View());
    ApplyOne(runtime.Abs(), OpContain);
    ghost var calls;
    r, calls := controller.Recover(runtime.capability, 1, [OpContain]);
  }
}
