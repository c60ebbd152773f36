/** The durable incident record of every containment.
    Source: src/agent_containment/incident_state.py. */
module IncidentRegistry {
  import opened Wrappers
  import Decimal

  datatype IncidentState = Open | Contained | ProofDegraded | Recovered

  datatype IncidentRecord = IncidentRecord(
    incidentId: string,
    agentId: string,
    state: IncidentState,
    containmentEpoch: nat,
    createdAt: real,
    proofAttached: bool,
    proofReference: Option<string>,
    reason: Option<string>,
    degradedReason: Option<string>,
    recoveryEpoch: Option<nat>)

  datatype IncidentError =
    | EmptyField
    | NegativeEpoch
    | AlreadyExists
    | UnknownIncident
    | WrongState
    | Storage

  /** The dict of records, in insertion order. */
  type Records = seq<IncidentRecord>

  predicate HasId(rs: Records, id: string) {
    exists i :: 0 <= i < |rs| && rs[i].incidentId == id
  }

  ghost predicate DistinctIds(rs: Records) {
    forall i, j :: 0 <= i < j < |rs| ==> rs[i].incidentId != rs[j].incidentId
  }

  function IndexOf(rs: Records, id: string): (k: nat)
    requires HasId(rs, id)
    ensures k < |rs| && rs[k].incidentId == id
  {
    if rs[0].incidentId == id then 0
    else
      assert HasId(rs[1..], id) by {
        var i :| 0 <= i < |rs| && rs[i].incidentId == id;
        assert rs[1..][i - 1].incidentId == id;
      }
      1 + IndexOf(rs[1..], id)
  }

  // ----- what each operation writes -----

  function NewRecord(id: string, agentId: string, epoch: nat, now: real, reason: Option<string>): IncidentRecord {
    IncidentRecord(id, agentId, Contained, epoch, now, false, None, reason, None, None)
  }

  function AsDegraded(r: IncidentRecord, reason: string): IncidentRecord {
    r.(state := ProofDegraded, proofAttached := false, proofReference := None, degradedReason := Some(reason))
  }

  function AsRestored(r: IncidentRecord): IncidentRecord {
    r.(state := Contained)
  }

  function AsAdmitted(r: IncidentRecord): IncidentRecord {
    r.(state := Recovered, recoveryEpoch := Some(r.containmentEpoch + 1))
  }

  function AsProved(r: IncidentRecord, reference: string): IncidentRecord {
    r.(state := Contained, proofAttached := true, proofReference := Some(reference))
  }

  // ----- the latest incident of an agent -----

  /** `k` is the position `max(..., key=created_at)` picks: the first of the latest. */
  ghost predicate IsLatest(rs: Records, agentId: string, k: nat) {
    && k < |rs|
    && rs[k].agentId == agentId
    && (forall i :: 0 <= i < |rs| && rs[i].agentId == agentId ==> rs[i].createdAt <= rs[k].createdAt)
    && (forall i :: 0 <= i < k && rs[i].agentId == agentId ==> rs[i].createdAt < rs[k].createdAt)
  }

  /** The records of one agent, in insertion order. */
  function ForAgent(rs: Records, agentId: string): Records {
    if rs == [] then []
    else
      var last := rs[|rs| - 1];
      ForAgent(rs[..|rs| - 1], agentId) + if last.agentId == agentId then [last] else []
  }

  /** How many records of the agent stand before position `k`. */
  function CountBefore(rs: Records, agentId: string, k: nat): nat
    requires k <= |rs|
  {
    |ForAgent(rs[..k], agentId)|
  }

  /** The clock never stood still or went back between two records of one agent. */
  ghost predicate Chronological(rs: Records) {
    forall i, j :: 0 <= i < j < |rs| && rs[i].agentId == rs[j].agentId ==> rs[i].createdAt < rs[j].createdAt
  }

  lemma {:induction false} ForAgentMembers(rs: Records, agentId: string)
    ensures forall r :: r in ForAgent(rs, agentId) <==> r in rs && r.agentId == agentId
  {
    if rs != [] {
      ForAgentMembers(rs[..|rs| - 1], agentId);
      assert rs == rs[..|rs| - 1] + [rs[|rs| - 1]];
    }
  }

  lemma ForAgentAppend(rs: Records, r: IncidentRecord, agentId: string)
    ensures ForAgent(rs + [r], agentId) == ForAgent(rs, agentId) + if r.agentId == agentId then [r] else []
  {
    assert (rs + [r])[..|rs|] == rs;
  }

  /** Replacing a record leaves every other agent's listing alone, and replaces it in its own. */
  lemma {:induction false} ForAgentUpdate(rs: Records, k: nat, r: IncidentRecord, agentId: string)
    requires k < |rs| && r.agentId == rs[k].agentId
    ensures r.agentId != agentId ==> ForAgent(rs[k := r], agentId) == ForAgent(rs, agentId)
    ensures r.agentId == agentId ==>
              && CountBefore(rs, agentId, k) < |ForAgent(rs, agentId)|
              && ForAgent(rs, agentId)[CountBefore(rs, agentId, k)] == rs[k]
              && ForAgent(rs[k := r], agentId) == ForAgent(rs, agentId)[CountBefore(rs, agentId, k) := r]
  {
    var n := |rs| - 1;
    if k == n {
      assert rs[k := r][..n] == rs[..n];
    } else {
      ForAgentUpdate(rs[..n], k, r, agentId);
      assert rs[k := r][..n] == rs[..n][k := r];
      assert rs[..n][..k] == rs[..k];
    }
  }

  /** With a clock that moves on, the latest incident is the agent's last one. */
  lemma {:induction false} LatestIsLast(rs: Records, agentId: string, k: nat)
    requires Chronological(rs) && IsLatest(rs, agentId, k)
    ensures ForAgent(rs, agentId) != []
    ensures CountBefore(rs, agentId, k) == |ForAgent(rs, agentId)| - 1
    ensures ForAgent(rs, agentId)[|ForAgent(rs, agentId)| - 1] == rs[k]
  {
    var n := |rs| - 1;
    if k < n {
      LatestIsLast(rs[..n], agentId, k);
      assert rs[..n][..k] == rs[..k];
    }
  }

  // ----- incident identifiers -----

  /** `f"{agent_id}:containment:{epoch}"` */
  function IncidentId(agentId: string, epoch: nat): string {
    agentId + ":containment:" + Decimal.Numeral(epoch)
  }

  lemma {:induction false} SplitAtLastColon(a: string, b: string, x: string, y: string)
    requires forall i :: 0 <= i < |x| ==> x[i] != ':'
    requires forall i :: 0 <= i < |y| ==> y[i] != ':'
    requires a + ":" + x == b + ":" + y
    ensures a == b && x == y
  {
    var s := a + ":" + x;
    assert s[|a|] == ':' && s[|b|] == ':';
    assert forall i :: |a| < i < |s| ==> s[i] == x[i - |a| - 1];
    assert forall i :: |b| < i < |s| ==> s[i] == y[i - |b| - 1];
    assert a == s[..|a|] && b == s[..|b|];
    assert x == s[|a| + 1..] && y == s[|b| + 1..];
  }

  /** No two agents, and no two epochs of one agent, can share an incident identifier, even when
      an agent's own name contains the separator. */
  lemma {:induction false} IncidentIdInjective(a: string, e: nat, b: string, f: nat)
    requires IncidentId(a, e) == IncidentId(b, f)
    ensures a == b && e == f
  {
    var mid := ":containment";
    var x, y := Decimal.Numeral(e), Decimal.Numeral(f);
    assert a + ":containment:" + x == (a + mid) + ":" + x;
    assert b + ":containment:" + y == (b + mid) + ":" + y;
    SplitAtLastColon(a + mid, b + mid, x, y);
    assert (a + mid)[..|a + mid| - |mid|] == a && (b + mid)[..|b + mid| - |mid|] == b;
    Decimal.ValueOfNumeral(e);
    Decimal.ValueOfNumeral(f);
  }

  // ----- the registry -----

  class IncidentRegistry {
    const persistent: bool
    var records: Records
    var disk: Records

    ghost predicate Valid()
      reads this
    {
      (persistent ==> disk == records) && DistinctIds(records)
    }

    constructor (persistent: bool, disk: Records)
      requires DistinctIds(disk)
      ensures Valid() && this.persistent == persistent && this.disk == disk
      ensures records == if persistent then disk else []
    {
      this.persistent := persistent;
      this.disk := disk;
      records := if persistent then disk else [];
    }

    method Persist(candidate: Records, writes: bool) returns (ok: bool)
      modifies `disk
      ensures ok == (persistent ==> writes)
      ensures disk == if persistent && writes then candidate else old(disk)
    {
      if !persistent {
        return true;
      }
      if writes {
        disk := candidate;
      }
      return writes;
    }

    /** Whether the id is a key of the dict. */
    method Find(id: string) returns (k: nat)
      ensures k <= |records|
      ensures k < |records| <==> HasId(records, id)
      ensures k < |records| ==> records[k].incidentId == id && k == IndexOf(records, id)
    {
      k := 0;
      while k < |records| && records[k].incidentId != id
        invariant 0 <= k <= |records|
        invariant forall i :: 0 <= i < k ==> records[i].incidentId != id
      {
        k := k + 1;
      }
      if k < |records| {
        IndexOfFirst(records, id, k);
      }
    }

    method RecordContainment(id: string, agentId: string, epoch: int, reason: Option<string>, now: real, writes: bool)
      returns (r: Result<IncidentRecord, IncidentError>)
      requires Valid()
      modifies this
      ensures Valid()
      ensures r.Ok? <==> id != "" && agentId != "" && epoch >= 0 && !HasId(old(records), id) && (persistent ==> writes)
      ensures r.Ok? ==> r.value == IncidentRecord(id, agentId, Contained, epoch, now, false, None, reason, None, None)
                        && records == old(records) + [r.value]
      ensures r.Err? ==> records == old(records) && disk == old(disk)
      ensures r.Err? ==> r.error == if id == "" || agentId == "" then EmptyField
                                    else if epoch < 0 then NegativeEpoch
                                    else if HasId(old(records), id) then AlreadyExists else Storage
    {
      if id == "" || agentId == "" {
        return Err(EmptyField);
      }
      if epoch < 0 {
        return Err(NegativeEpoch);
      }
      var k := Find(id);
      if k < |records| {
        return Err(AlreadyExists);
      }
      var record := NewRecord(id, agentId, epoch, now, reason);
      var candidate := records + [record];
      var ok := Persist(candidate, writes);
      if !ok {
        return Err(Storage);
      }
      records := candidate;
      return Ok(record);
    }

    /** Persist the replacement of one record, then commit it. */
    method Replace(k: nat, updated: IncidentRecord, writes: bool) returns (r: Result<IncidentRecord, IncidentError>)
      requires Valid() && k < |records| && updated.incidentId == records[k].incidentId
      modifies this
      ensures Valid()
      ensures r == if persistent ==> writes then Ok(updated) else Err(Storage)
      ensures r.Ok? ==> records == old(records)[k := updated]
      ensures r.Err? ==> records == old(records) && disk == old(disk)
    {
      var candidate := records[k := updated];
      var ok := Persist(candidate, writes);
      if !ok {
        return Err(Storage);
      }
      records := candidate;
      return Ok(updated);
    }

    method MarkProofDegraded(id: string, reason: string, writes: bool)
      returns (r: Result<IncidentRecord, IncidentError>)
      requires Valid()
      modifies this
      ensures Valid()
      ensures r.Ok? <==> reason != "" && HasId(old(records), id) && (persistent ==> writes)
      // The proof the record may have had is dropped.
      ensures r.Ok? ==> var k := IndexOf(old(records), id);
                        && records == old(records)[k := r.value]
                        && r.value == old(records)[k].(state := ProofDegraded, degradedReason := Some(reason),
                                                       proofAttached := false, proofReference := None)
      ensures r.Err? ==> records == old(records) && disk == old(disk)
      ensures r.Err? ==> r.error == if reason == "" then EmptyField
                                    else if !HasId(old(records), id) then UnknownIncident else Storage
    {
      if reason == "" {
        return Err(EmptyField);
      }
      var k := Find(id);
      if k == |records| {
        return Err(UnknownIncident);
      }
      r := Replace(k, AsDegraded(records[k], reason), writes);
    }

    method RestoreContained(id: string, writes: bool) returns (r: Result<IncidentRecord, IncidentError>)
      requires Valid()
      modifies this
      ensures Valid()
      ensures r.Ok? <==> && HasId(old(records), id)
                         && old(records)[IndexOf(old(records), id)].state == Recovered
                         && (persistent ==> writes)
      // What was recorded of its recovery stays.
      ensures r.Ok? ==> var k := IndexOf(old(records), id);
                        && records == old(records)[k := r.value]
                        && r.value == old(records)[k].(state := Contained)
      ensures r.Err? ==> records == old(records) && disk == old(disk)
      ensures r.Err? ==> r.error == if !HasId(old(records), id) then UnknownIncident
                                    else if old(records)[IndexOf(old(records), id)].state != Recovered then WrongState
                                    else Storage
    {
      var k := Find(id);
      if k == |records| {
        return Err(UnknownIncident);
      }
      if records[k].state != Recovered {
        return Err(WrongState);
      }
      r := Replace(k, AsRestored(records[k]), writes);
    }

    method MarkRecovered(id: string, writes: bool) returns (r: Result<IncidentRecord, IncidentError>)
      requires Valid()
      modifies this
      ensures Valid()
      ensures r.Ok? <==> && HasId(old(records), id)
                         && old(records)[IndexOf(old(records), id)].state in {Contained, ProofDegraded}
                         && (persistent ==> writes)
      ensures r.Ok? ==> var k := IndexOf(old(records), id);
                        && records == old(records)[k := r.value]
                        && r.value == old(records)[k].(state := Recovered,
                                                       recoveryEpoch := Some(old(records)[k].containmentEpoch + 1))
      ensures r.Err? ==> records == old(records) && disk == old(disk)
      ensures r.Err? ==> r.error == if !HasId(old(records), id) then UnknownIncident
                                    else if old(records)[IndexOf(old(records), id)].state !in {Contained, ProofDegraded}
                                    then WrongState else Storage
    {
      var k := Find(id);
      if k == |records| {
        return Err(UnknownIncident);
      }
      if records[k].state !in {Contained, ProofDegraded} {
        return Err(WrongState);
      }
      r := Replace(k, AsAdmitted(records[k]), writes);
    }

    method AttachProof(id: string, reference: string, writes: bool) returns (r: Result<IncidentRecord, IncidentError>)
      requires Valid()
      modifies this
      ensures Valid()
      ensures r.Ok? <==> && reference != "" && HasId(old(records), id)
                         && old(records)[IndexOf(old(records), id)].state != Recovered
                         && (persistent ==> writes)
      // A degraded record counts as contained again; the reason of its degradation stays on it.
      ensures r.Ok? ==> var k := IndexOf(old(records), id);
                        && records == old(records)[k := r.value]
                        && r.value == old(records)[k].(state := Contained, proofAttached := true,
                                                       proofReference := Some(reference))
      ensures r.Err? ==> records == old(records) && disk == old(disk)
      ensures r.Err? ==> r.error == if reference == "" then EmptyField
                                    else if !HasId(old(records), id) then UnknownIncident
                                    else if old(records)[IndexOf(old(records), id)].state == Recovered then WrongState
                                    else Storage
    {
      if reference == "" {
        return Err(EmptyField);
      }
      var k := Find(id);
      if k == |records| {
        return Err(UnknownIncident);
      }
      if records[k].state == Recovered {
        return Err(WrongState);
      }
      r := Replace(k, AsProved(records[k], reference), writes);
    }

    method LatestForAgent(agentId: string) returns (r: Result<Option<IncidentRecord>, IncidentError>, ghost at: nat)
      ensures r.Err? <==> agentId == ""
      ensures r.Ok? && r.value.None? ==> forall i :: 0 <= i < |records| ==> records[i].agentId != agentId
      ensures r.Ok? && r.value.Some? ==> IsLatest(records, agentId, at) && r.value.value == records[at]
    {
      at := 0;
      if agentId == "" {
        return Err(EmptyField), at;
      }
      var best: Option<IncidentRecord> := None;
      for i := 0 to |records|
        invariant best.None? ==> forall j :: 0 <= j < i ==> records[j].agentId != agentId
        invariant best.Some? ==> IsLatest(records[..i], agentId, at) && best.value == records[at]
      {
        var record := records[i];
        if record.agentId == agentId && (best.None? || record.createdAt > best.value.createdAt) {
          best := Some(record);
          at := i;
        }
      }
      assert records[..|records|] == records;
      return Ok(best), at;
    }
  }

  lemma {:induction false} IndexOfFirst(rs: Records, id: string, k: nat)
    requires k < |rs| && rs[k].incidentId == id
    requires forall i :: 0 <= i < k ==> rs[i].incidentId != id
    ensures HasId(rs, id) && IndexOf(rs, id) == k
  {
    if k > 0 {
      IndexOfFirst(rs[1..], id, k - 1);
    }
  }
}
