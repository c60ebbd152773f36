/** The durable fence: per agent, the epoch at which containment was last requested.
    Source: src/agent_containment/runtime_fence.py. */
module FenceRegistry {
  import opened Wrappers

  datatype FenceRecord = FenceRecord(agentId: string, containmentEpoch: nat)

  datatype FenceError = EmptyAgentId | NegativeEpoch | Storage | DuplicateFence(agentId: string)

  type Fences = map<string, nat>

  /** `items` is a listing of `fences`, in whatever order the dict held them. */
  ghost predicate Lists(items: seq<FenceRecord>, fences: Fences) {
    && (forall i, j :: 0 <= i < j < |items| ==> items[i].agentId != items[j].agentId)
    && (forall i :: 0 <= i < |items| ==>
          items[i].agentId in fences && fences[items[i].agentId] == items[i].containmentEpoch)
    && (forall a :: a in fences ==> exists i :: 0 <= i < |items| && items[i].agentId == a)
  }

  /** One listing denotes one map: what is read back is what was written. */
  lemma {:induction false} ListingDeterminesMap(items: seq<FenceRecord>, m: Fences, n: Fences)
    requires Lists(items, m) && Lists(items, n)
    ensures m == n
  {
    assert forall a :: a in m <==> a in n;
    forall a | a in m ensures m[a] == n[a] {
      var i :| 0 <= i < |items| && items[i].agentId == a;
      assert m[items[i].agentId] == n[items[i].agentId];
    }
  }

  lemma {:induction false} ListsOneMore(items: seq<FenceRecord>, m: Fences, item: FenceRecord)
    requires Lists(items, m) && item.agentId !in m
    ensures Lists(items + [item], m[item.agentId := item.containmentEpoch])
  {
    var seen, n := items + [item], m[item.agentId := item.containmentEpoch];
    forall i, j | 0 <= i < j < |seen| ensures seen[i].agentId != seen[j].agentId {
      assert items[i].agentId in m;
    }
    forall a: string ensures a in n ==> exists i :: 0 <= i < |seen| && seen[i].agentId == a {
      if a == item.agentId {
        assert seen[|items|].agentId == a;
      } else if a in n {
        var i :| 0 <= i < |items| && items[i].agentId == a;
        assert seen[i].agentId == a;
      }
    }
  }

  /** Reading a stored listing: accepted exactly when no agent is listed twice, and then it
      yields the one map the listing denotes. */
  method Load(items: seq<FenceRecord>) returns (r: Result<Fences, FenceError>)
    ensures r.Ok? <==> forall i, j :: 0 <= i < j < |items| ==> items[i].agentId != items[j].agentId
    ensures r.Ok? ==> Lists(items, r.value)
    ensures r.Err? ==>
              exists i, j :: 0 <= i < j < |items| && items[i].agentId == items[j].agentId
                             && r.error == DuplicateFence(items[j].agentId)
  {
    var loaded: Fences := map[];
    for k := 0 to |items|
      invariant Lists(items[..k], loaded)
    {
      var item := items[k];
      if item.agentId in loaded {
        var i :| 0 <= i < k && items[..k][i].agentId == item.agentId;
        return Err(DuplicateFence(item.agentId));
      }
      ListsOneMore(items[..k], loaded, item);
      assert items[..k + 1] == items[..k] + [item];
      loaded := loaded[item.agentId := item.containmentEpoch];
    }
    assert items[..|items|] == items;
    return Ok(loaded);
  }

  /** The listing `persist` writes, in whatever order the dict holds its values. */
  method Listing(fences: Fences) returns (items: seq<FenceRecord>)
    ensures Lists(items, fences)
  {
    items := [];
    var rest := fences;
    while rest.Keys != {}
      invariant rest.Keys <= fences.Keys && forall a :: a in rest ==> rest[a] == fences[a]
      invariant Lists(items, fences - rest.Keys)
      decreases |rest.Keys|
    {
      var a :| a in rest.Keys;
      ghost var done := fences - rest.Keys;
      ListsOneMore(items, done, FenceRecord(a, rest[a]));
      items, rest := items + [FenceRecord(a, rest[a])], rest - {a};
      assert fences - rest.Keys == done[a := fences[a]];
    }
    assert fences - rest.Keys == fences;
  }

  /** What a registry persists is what the next one loads. */
  method StoreAndLoad(fences: Fences) returns (r: Result<Fences, FenceError>)
    ensures r == Ok(fences)
  {
    var items := Listing(fences);
    r := Load(items);
    ListingDeterminesMap(items, fences, if r.Ok? then r.value else fences);
  }

  class RuntimeFenceRegistry {
    const persistent: bool
    var records: Fences
    var disk: Fences

    ghost predicate Valid()
      reads this
    {
      persistent ==> disk == records
    }

    /** A registry over what is on disk. */
    constructor (persistent: bool, disk: Fences)
      ensures Valid() && this.persistent == persistent && this.disk == disk
      ensures records == if persistent then disk else map[]
    {
      this.persistent := persistent;
      this.disk := disk;
      records := if persistent then disk else map[];
    }

    function Get(agentId: string): Option<nat>
      reads this
    {
      if agentId in records then Some(records[agentId]) else None
    }

    /** The atomic replacement of the stored map. `writes` is false when the device fails. */
    method Persist(candidate: Fences, writes: bool) returns (ok: bool)
      modifies `disk
      ensures ok == (persistent ==> writes)
      ensures disk == if persistent && writes then candidate else old(disk)
    {
      if !persistent {
        return true;
      }
      if writes {
        disk := candidate;
      }
      return writes;
    }

    method Prepare(agentId: string, containmentEpoch: int, writes: bool) returns (r: Result<FenceRecord, FenceError>)
      requires Valid()
      modifies this
      ensures Valid()
      ensures r.Ok? <==> agentId != "" && containmentEpoch >= 0 && (persistent ==> writes)
      ensures r.Ok? ==> r.value == FenceRecord(agentId, containmentEpoch)
                        && records == old(records)[agentId := containmentEpoch]
      ensures r.Err? ==> records == old(records) && disk == old(disk)
      ensures r.Err? ==> r.error == if agentId == "" then EmptyAgentId
                                    else if containmentEpoch < 0 then NegativeEpoch else Storage
    {
      if agentId == "" {
        return Err(EmptyAgentId);
      }
      if containmentEpoch < 0 {
        return Err(NegativeEpoch);
      }
      var candidate := records[agentId := containmentEpoch];
      var ok := Persist(candidate, writes);
      if !ok {
        return Err(Storage);
      }
      records := candidate;
      return Ok(FenceRecord(agentId, containmentEpoch));
    }

    method Clear(agentId: string, writes: bool) returns (r: Result<(), FenceError>)
      requires Valid()
      modifies this
      ensures Valid()
      ensures r.Ok? <==> agentId !in old(records) || (persistent ==> writes)
      ensures r.Ok? ==> records == old(records) - {agentId}
      ensures r.Err? ==> r.error == Storage && records == old(records) && disk == old(disk)
    {
      if agentId !in records {
        assert records == records - {agentId};
        return Ok(());
      }
      var candidate := records - {agentId};
      var ok := Persist(candidate, writes);
      if !ok {
        return Err(Storage);
      }
      records := candidate;
      return Ok(());
    }
  }
}
