/** How the registries of the service, which serve all agents, look to the protocol of one agent. */
module ServiceView {
  import opened Wrappers
  import opened IncidentRegistry
  import P = Protocol
  import opened ProtocolSafety

  function ProjectOne(r: IncidentRecord): P.Inc {
    P.Inc(r.incidentId, r.state, r.containmentEpoch, r.recoveryEpoch)
  }

  function Project(rs: Records): (incs: seq<P.Inc>)
    ensures |incs| == |rs|
    ensures forall i :: 0 <= i < |rs| ==>
              incs[i] == P.Inc(rs[i].incidentId, rs[i].state, rs[i].containmentEpoch, rs[i].recoveryEpoch)
  {
    seq(|rs|, i requires 0 <= i < |rs| => ProjectOne(rs[i]))
  }

  /** The agent's incidents, as the protocol sees them. */
  function Incidents(rs: Records, agentId: string): seq<P.Inc> {
    Project(ForAgent(rs, agentId))
  }

  ghost predicate OwnId(r: IncidentRecord) {
    exists e: nat :: r.incidentId == IncidentId(r.agentId, e)
  }

  /** Every record is filed under an identifier of its own agent. */
  ghost predicate OwnIds(rs: Records) {
    forall i :: 0 <= i < |rs| ==> OwnId(rs[i])
  }

  ghost predicate WellKept(rs: Records) {
    DistinctIds(rs) && OwnIds(rs) && Chronological(rs)
  }

  ghost predicate Later(rs: Records, now: real) {
    forall i :: 0 <= i < |rs| ==> rs[i].createdAt < now
  }

  /** A reading of a clock that never repeats or goes back. */
  function NextReading(rs: Records): (now: real)
    ensures Later(rs, now)
  {
    if rs == [] then 0.0
    else
      var before, last := NextReading(rs[..|rs| - 1]), rs[|rs| - 1].createdAt;
      if last < before then before else last + 1.0
  }

  /** Nothing about any agent but `agentId` differs between the two. */
  ghost predicate SameForOthers(rs: Records, ts: Records, agentId: string) {
    forall b: string :: b != agentId ==> Incidents(ts, b) == Incidents(rs, b)
  }

  /** What a new record does to each agent's view. */
  lemma {:induction false} AppendView(rs: Records, agentId: string, target: nat, epoch: nat, now: real,
                                      reason: Option<string>)
    requires WellKept(rs) && Later(rs, now) && !HasId(rs, IncidentId(agentId, target))
    ensures var ts := rs + [NewRecord(IncidentId(agentId, target), agentId, epoch, now, reason)];
            && WellKept(ts)
            && Incidents(ts, agentId) == P.Recorded(agentId, Incidents(rs, agentId), target, epoch)
            && SameForOthers(rs, ts, agentId)
  {
    var r := NewRecord(IncidentId(agentId, target), agentId, epoch, now, reason);
    var ts := rs + [r];
    forall b: string ensures b != agentId ==> Incidents(ts, b) == Incidents(rs, b)
    {
      ForAgentAppend(rs, r, b);
    }
    ForAgentAppend(rs, r, agentId);
    assert OwnId(r);
  }

  /** What replacing the record at `k` does to each agent's view. */
  lemma {:induction false} UpdateView(rs: Records, k: nat, r: IncidentRecord)
    requires WellKept(rs) && k < |rs|
    requires r.incidentId == rs[k].incidentId && r.agentId == rs[k].agentId && r.createdAt == rs[k].createdAt
    ensures var ts := rs[k := r]; var a := r.agentId; var at := CountBefore(rs, a, k);
            && WellKept(ts)
            && at < |Incidents(rs, a)|
            && Incidents(rs, a)[at] == ProjectOne(rs[k])
            && Incidents(ts, a) == Incidents(rs, a)[at := ProjectOne(r)]
            && SameForOthers(rs, ts, a)
  {
    var ts := rs[k := r];
    assert OwnId(rs[k]);
    assert OwnId(r) by {
      var e: nat :| rs[k].incidentId == IncidentId(rs[k].agentId, e);
      assert r.incidentId == IncidentId(r.agentId, e);
    }
    ForAgentUpdate(rs, k, r, r.agentId);
    forall b: string ensures b != r.agentId ==> Incidents(ts, b) == Incidents(rs, b)
    {
      ForAgentUpdate(rs, k, r, b);
    }
  }

  /** The registry's latest record is the protocol's. */
  lemma {:induction false} LatestView(rs: Records, agentId: string, k: nat)
    requires WellKept(rs) && IsLatest(rs, agentId, k)
    ensures P.Latest(Incidents(rs, agentId)) == Some(ProjectOne(rs[k]))
    ensures CountBefore(rs, agentId, k) == |Incidents(rs, agentId)| - 1
    ensures HasId(rs, rs[k].incidentId) && IndexOf(rs, rs[k].incidentId) == k
  {
    LatestIsLast(rs, agentId, k);
    IndexOfFirst(rs, rs[k].incidentId, k);
  }

  /** What rewriting the agent's latest record does to its view. */
  lemma {:induction false} LatestUpdated(rs: Records, agentId: string, k: nat, r: IncidentRecord)
    requires WellKept(rs) && IsLatest(rs, agentId, k)
    requires r.incidentId == rs[k].incidentId && r.agentId == rs[k].agentId && r.createdAt == rs[k].createdAt
    ensures HasId(rs, rs[k].incidentId) && IndexOf(rs, rs[k].incidentId) == k
    ensures var ts := rs[k := r]; var before := Incidents(rs, agentId);
            && WellKept(ts) && IsLatest(ts, agentId, k) && SameForOthers(rs, ts, agentId)
            && before != [] && before[|before| - 1] == ProjectOne(rs[k])
            && Incidents(ts, agentId) == before[|before| - 1 := ProjectOne(r)]
  {
    LatestView(rs, agentId, k);
    UpdateView(rs, k, r);
  }

  lemma {:induction false} NoneView(rs: Records, agentId: string)
    requires forall i :: 0 <= i < |rs| ==> rs[i].agentId != agentId
    ensures ForAgent(rs, agentId) == [] && Incidents(rs, agentId) == []
  {
    if rs != [] {
      NoneView(rs[..|rs| - 1], agentId);
    }
  }

  lemma {:induction false} KeyIsOwn(rs: Records, agentId: string, epoch: nat)
    requires WellKept(rs) && HasId(rs, IncidentId(agentId, epoch))
    ensures var k := IndexOf(rs, IncidentId(agentId, epoch)); var incs := Incidents(rs, agentId);
            && rs[k].agentId == agentId
            && CountBefore(rs, agentId, k) < |incs|
            && incs[CountBefore(rs, agentId, k)].id == IncidentId(agentId, epoch)
  {
    var k := IndexOf(rs, IncidentId(agentId, epoch));
    assert OwnId(rs[k]);
    var e: nat :| rs[k].incidentId == IncidentId(rs[k].agentId, e);
    IncidentIdInjective(rs[k].agentId, e, agentId, epoch);
    ForAgentUpdate(rs, k, rs[k], agentId);
  }

  lemma {:induction false} OwnIsKey(rs: Records, agentId: string, epoch: nat)
    requires P.Known(Incidents(rs, agentId), IncidentId(agentId, epoch))
    ensures HasId(rs, IncidentId(agentId, epoch))
  {
    ForAgentMembers(rs, agentId);
    var own := ForAgent(rs, agentId);
    var i :| 0 <= i < |own| && Incidents(rs, agentId)[i].id == IncidentId(agentId, epoch);
    assert own[i] in own && own[i] in rs;
    var j :| 0 <= j < |rs| && rs[j] == own[i];
    assert rs[j].incidentId == IncidentId(agentId, epoch);
  }

  /** An identifier of the agent is a key of the shared dict exactly when it is one of the agent's
      own; no other agent's record can carry it. */
  lemma {:induction false} KnownView(rs: Records, agentId: string, epoch: nat)
    requires WellKept(rs)
    ensures HasId(rs, IncidentId(agentId, epoch)) <==> P.Known(Incidents(rs, agentId), IncidentId(agentId, epoch))
    ensures HasId(rs, IncidentId(agentId, epoch)) ==>
              var k := IndexOf(rs, IncidentId(agentId, epoch));
              && rs[k].agentId == agentId
              && P.Find(Incidents(rs, agentId), IncidentId(agentId, epoch)) == CountBefore(rs, agentId, k)
  {
    var id := IncidentId(agentId, epoch);
    if P.Known(Incidents(rs, agentId), id) {
      OwnIsKey(rs, agentId, epoch);
    }
    if HasId(rs, id) {
      KeyIsOwn(rs, agentId, epoch);
      OwnDistinct(rs, agentId);
      var at, f := CountBefore(rs, agentId, IndexOf(rs, id)), P.Find(Incidents(rs, agentId), id);
      assert ForAgent(rs, agentId)[f].incidentId == ForAgent(rs, agentId)[at].incidentId;
    }
  }

  lemma {:induction false} OwnDistinct(rs: Records, agentId: string)
    requires DistinctIds(rs)
    ensures DistinctIds(ForAgent(rs, agentId))
  {
    if rs != [] {
      var n := |rs| - 1;
      OwnDistinct(rs[..n], agentId);
      ForAgentMembers(rs[..n], agentId);
      var front := ForAgent(rs[..n], agentId);
      forall i | 0 <= i < |front| ensures front[i].incidentId != rs[n].incidentId {
        assert front[i] in front && front[i] in rs[..n];
      }
    }
  }

  /** No record is OPEN, and a RECOVERED one names the epoch after its own: what this service writes. */
  ghost predicate Settled(rs: Records) {
    forall i :: 0 <= i < |rs| ==>
      rs[i].state != Open && (rs[i].state == Recovered ==> rs[i].recoveryEpoch == Some(rs[i].containmentEpoch + 1))
  }

  lemma {:induction false} SettledView(rs: Records)
    ensures Settled(rs) <==> forall a: string :: WellFormed(Incidents(rs, a))
  {
    if Settled(rs) {
      forall a: string ensures WellFormed(Incidents(rs, a)) {
        ForAgentMembers(rs, a);
        forall i | 0 <= i < |ForAgent(rs, a)| ensures ForAgent(rs, a)[i] in rs {
          assert ForAgent(rs, a)[i] in ForAgent(rs, a);
        }
      }
    } else {
      var i :| 0 <= i < |rs| && !(rs[i].state != Open
                                  && (rs[i].state == Recovered ==>
                                      rs[i].recoveryEpoch == Some(rs[i].containmentEpoch + 1)));
      ForAgentMembers(rs, rs[i].agentId);
      assert rs[i] in rs;
      var own := ForAgent(rs, rs[i].agentId);
      var j :| 0 <= j < |own| && own[j] == rs[i];
      assert Incidents(rs, rs[i].agentId)[j] == ProjectOne(rs[i]);
    }
  }
}
