/** The hash-linked incident timeline.
    Source: src/agent_containment/evidence_chain.py. */
module EvidenceChain {
  import opened Wrappers

  /** A number as JSON text prints it: `digits` times ten to the `exponent`. */
  datatype Number = Number(digits: int, exponent: int)

  datatype Json =
    | JNull
    | JBool(b: bool)
    | JNumber(n: Number)
    | JString(s: string)
    | JArray(items: seq<Json>)
    | JObject(fields: map<string, Json>)

  /** Everything a node's hash covers. */
  datatype Body = Body(
    sequence: int,
    eventId: string,
    eventType: string,
    timestamp: Number,
    agentId: string,
    incidentId: Option<string>,
    containmentEpoch: Option<int>,
    payload: Json,
    previousHash: string)

  datatype Node = Node(body: Body, nodeHash: string)

  /** SHA-256 over the canonical JSON of a body, as a hexadecimal string. */
  type Hash = Body -> string

  const GENESIS := "0000000000000000000000000000000000000000000000000000000000000000"

  /** What the chain theorems assume of the hash: no collisions, and never the genesis value. */
  ghost predicate CollisionFree(hash: Hash) {
    && (forall x, y :: hash(x) == hash(y) ==> x == y)
    && (forall x :: hash(x) != GENESIS)
  }

  function Head(nodes: seq<Node>): string {
    if nodes == [] then GENESIS else nodes[|nodes| - 1].nodeHash
  }

  predicate HasEvent(nodes: seq<Node>, eventId: string) {
    exists i :: 0 <= i < |nodes| && nodes[i].body.eventId == eventId
  }

  /** Node `i` continues the nodes before it. */
  predicate Continues(hash: Hash, nodes: seq<Node>, i: nat)
    requires i < |nodes|
  {
    && nodes[i].body.sequence == i
    && !HasEvent(nodes[..i], nodes[i].body.eventId)
    && nodes[i].body.previousHash == Head(nodes[..i])
    && nodes[i].nodeHash == hash(nodes[i].body)
  }

  predicate Verified(hash: Hash, nodes: seq<Node>) {
    forall i :: 0 <= i < |nodes| ==> Continues(hash, nodes, i)
  }

  /** No node before `i` records the same event. */
  predicate NewEvent(nodes: seq<Node>, i: nat)
    requires i < |nodes|
  {
    forall j :: 0 <= j < i ==> nodes[j].body.eventId != nodes[i].body.eventId
  }

  lemma {:induction false} ContinuesMeans(hash: Hash, nodes: seq<Node>, i: nat)
    requires i < |nodes|
    ensures Continues(hash, nodes, i) <==>
              && nodes[i].body.sequence == i && NewEvent(nodes, i) && nodes[i].nodeHash == hash(nodes[i].body)
              && nodes[i].body.previousHash == (if i == 0 then GENESIS else nodes[i - 1].nodeHash)
  {
    assert forall j :: 0 <= j < i ==> nodes[..i][j] == nodes[j];
  }

  /** Numbered from zero, no event twice, each node linked to the hash of the one before it, the first to the
      genesis value, and hashed over its own body. */
  ghost predicate Chained(hash: Hash, nodes: seq<Node>) {
    forall i :: 0 <= i < |nodes| ==>
      && nodes[i].body.sequence == i && NewEvent(nodes, i) && nodes[i].nodeHash == hash(nodes[i].body)
      && nodes[i].body.previousHash == if i == 0 then GENESIS else nodes[i - 1].nodeHash
  }

  /** That is what verification decides. */
  lemma {:induction false} VerifiedMeans(hash: Hash, nodes: seq<Node>)
    ensures Verified(hash, nodes) <==> Chained(hash, nodes)
  {
    forall i: nat | i < |nodes| && Verified(hash, nodes)
      ensures nodes[i].body.sequence == i && NewEvent(nodes, i) && nodes[i].nodeHash == hash(nodes[i].body)
      ensures nodes[i].body.previousHash == if i == 0 then GENESIS else nodes[i - 1].nodeHash
    {
      ContinuesMeans(hash, nodes, i);
    }
    forall i: nat | i < |nodes| && Chained(hash, nodes) ensures Continues(hash, nodes, i) {
      ContinuesMeans(hash, nodes, i);
    }
  }

  lemma {:induction false} VerifiedPrefix(hash: Hash, nodes: seq<Node>, n: nat)
    requires Verified(hash, nodes) && n <= |nodes|
    ensures Verified(hash, nodes[..n])
  {
    forall i | 0 <= i < n ensures Continues(hash, nodes[..n], i) {
      assert Continues(hash, nodes, i);
      assert nodes[..n][..i] == nodes[..i];
    }
  }

  lemma {:induction false} VerifiedExtended(hash: Hash, nodes: seq<Node>, node: Node)
    requires Verified(hash, nodes)
    ensures Verified(hash, nodes + [node]) <==> Continues(hash, nodes + [node], |nodes|)
  {
    var longer := nodes + [node];
    forall i | 0 <= i < |nodes| ensures Continues(hash, longer, i) {
      assert Continues(hash, nodes, i);
      assert longer[..i] == nodes[..i];
    }
  }

  /** Only the empty chain has the genesis head. */
  lemma {:induction false} GenesisMeansEmpty(hash: Hash, nodes: seq<Node>)
    requires CollisionFree(hash) && Verified(hash, nodes)
    ensures Head(nodes) == GENESIS <==> nodes == []
  {
    if nodes != [] {
      assert Continues(hash, nodes, |nodes| - 1);
    }
  }

  /** The head commits to the whole history. */
  lemma {:induction false} HeadDeterminesChain(hash: Hash, a: seq<Node>, b: seq<Node>)
    requires CollisionFree(hash) && Verified(hash, a) && Verified(hash, b)
    ensures Head(a) == Head(b) <==> a == b
    decreases |a|
  {
    GenesisMeansEmpty(hash, a);
    GenesisMeansEmpty(hash, b);
    if Head(a) == Head(b) && a != [] {
      var m, n := |a| - 1, |b| - 1;
      assert Continues(hash, a, m) && Continues(hash, b, n);
      VerifiedPrefix(hash, a, m);
      VerifiedPrefix(hash, b, n);
      HeadDeterminesChain(hash, a[..m], b[..n]);
      assert a == a[..m] + [a[m]] && b == b[..n] + [b[n]];
    }
  }

  /** No rewriting of a verified chain that keeps its last node, be it a mutation, a deletion, an
      insertion or a reordering further back, passes verification. */
  lemma {:induction false} RewritingIsDetected(hash: Hash, a: seq<Node>, b: seq<Node>)
    requires CollisionFree(hash) && Verified(hash, a) && a != [] && b != []
    requires b[|b| - 1] == a[|a| - 1]
    ensures Verified(hash, b) <==> b == a
  {
    if Verified(hash, b) {
      HeadDeterminesChain(hash, a, b);
    }
  }

  /** What verification alone cannot see: dropping the newest nodes. The shorter chain verifies, and
      only its head tells it from the longer one. */
  lemma {:induction false} TruncationNeedsTheHead(hash: Hash, nodes: seq<Node>, n: nat)
    requires CollisionFree(hash) && Verified(hash, nodes) && n < |nodes|
    ensures Verified(hash, nodes[..n]) && Head(nodes[..n]) != Head(nodes)
  {
    VerifiedPrefix(hash, nodes, n);
    HeadDeterminesChain(hash, nodes, nodes[..n]);
  }

  datatype AppendError = EmptyField | NegativeTimestamp | NegativeEpoch | DuplicateEvent

  /** The first check of `verify` that fails, and at which node. */
  datatype Fault = NotContiguous(at: nat) | RepeatedEvent(at: nat) | LinkBroken(at: nat) | Mutated(at: nat)

  ghost predicate FirstFault(hash: Hash, nodes: seq<Node>, f: Fault) {
    && f.at < |nodes|
    && Verified(hash, nodes[..f.at])
    && var body := nodes[f.at].body; var before := nodes[..f.at];
       match f
       case NotContiguous(at) => body.sequence != at
       case RepeatedEvent(at) => body.sequence == at && HasEvent(before, body.eventId)
       case LinkBroken(at) =>
         body.sequence == at && !HasEvent(before, body.eventId) && body.previousHash != Head(before)
       case Mutated(at) => body.sequence == at && !HasEvent(before, body.eventId) && body.previousHash == Head(before)
                           && nodes[at].nodeHash != hash(body)
  }

  /** A fault sits at the first node that does not continue the nodes before it. */
  lemma {:induction false} FaultBreaks(hash: Hash, nodes: seq<Node>, f: Fault)
    requires FirstFault(hash, nodes, f)
    ensures !Continues(hash, nodes, f.at)
    ensures forall i :: 0 <= i < f.at ==> Continues(hash, nodes, i)
  {
    forall i | 0 <= i < f.at ensures Continues(hash, nodes, i) {
      assert Continues(hash, nodes[..f.at], i);
      assert nodes[..f.at][..i] == nodes[..i];
    }
  }

  /** A chain has at most one first fault, and a verified one has none. */
  lemma {:induction false} FirstFaultIsUnique(hash: Hash, nodes: seq<Node>, f: Fault, g: Fault)
    requires FirstFault(hash, nodes, f)
    ensures !Verified(hash, nodes)
    ensures FirstFault(hash, nodes, g) ==> f == g
  {
    FaultBreaks(hash, nodes, f);
    if FirstFault(hash, nodes, g) {
      FaultBreaks(hash, nodes, g);
    }
  }

  class IncidentEvidenceChain {
    const hash: Hash
    var nodes: seq<Node>

    constructor (hash: Hash)
      ensures this.hash == hash && nodes == []
    {
      this.hash := hash;
      nodes := [];
    }

    /** Accepted exactly when the event is well formed and new. A verified chain stays verified and
        gains exactly the one node; a refused append changes nothing. */
    method Append(eventId: string, eventType: string, timestamp: Number, agentId: string,
                  incidentId: Option<string>, containmentEpoch: Option<int>, payload: Json)
      returns (r: Result<Node, AppendError>)
      modifies this
      ensures r.Ok? <==>
                && eventId != "" && eventType != "" && agentId != "" && timestamp.digits >= 0
                && (containmentEpoch.Some? ==> containmentEpoch.value >= 0) && !HasEvent(old(nodes), eventId)
      ensures r.Err? ==> nodes == old(nodes)
      ensures r.Ok? ==>
                && nodes == old(nodes) + [r.value]
                && r.value.body.(sequence := 0, previousHash := "")
                   == Body(0, eventId, eventType, timestamp, agentId, incidentId, containmentEpoch, payload, "")
                && r.value.body.sequence == |old(nodes)| && r.value.nodeHash == hash(r.value.body)
                && r.value.body.previousHash
                   == (if old(nodes) == [] then GENESIS else old(nodes)[|old(nodes)| - 1].nodeHash)
                && Continues(hash, nodes, |old(nodes)|)
      ensures r.Err? ==> r.error == if eventId == "" || eventType == "" || agentId == "" then EmptyField
                                    else if timestamp.digits < 0 then NegativeTimestamp
                                    else if containmentEpoch.Some? && containmentEpoch.value < 0 then NegativeEpoch
                                    else DuplicateEvent
      ensures old(Verified(hash, nodes)) ==> Verified(hash, nodes)
    {
      if eventId == "" || eventType == "" || agentId == "" {
        return Err(EmptyField);
      }
      if timestamp.digits < 0 {
        return Err(NegativeTimestamp);
      }
      if containmentEpoch.Some? && containmentEpoch.value < 0 {
        return Err(NegativeEpoch);
      }
      if HasEvent(nodes, eventId) {
        return Err(DuplicateEvent);
      }
      var body := Body(|nodes|, eventId, eventType, timestamp, agentId, incidentId, containmentEpoch, payload,
                       Head(nodes));
      var node := Node(body, hash(body));
      assert (nodes + [node])[..|nodes|] == nodes;
      if Verified(hash, nodes) {
        VerifiedExtended(hash, nodes, node);
      }
      nodes := nodes + [node];
      return Ok(node);
    }

    /** One pass, with the running link and the identifiers seen; reports the first fault. */
    method Verify() returns (fault: Option<Fault>)
      ensures fault.None? <==> Verified(hash, nodes)
      ensures fault.None? <==> Chained(hash, nodes)
      ensures fault.Some? ==> FirstFault(hash, nodes, fault.value)
    {
      VerifiedMeans(hash, nodes);
      var previous := GENESIS;
      var seen: set<string> := {};
      for i := 0 to |nodes|
        invariant Verified(hash, nodes[..i])
        invariant previous == Head(nodes[..i])
        invariant forall id :: id in seen <==> HasEvent(nodes[..i], id)
      {
        var node := nodes[i];
        assert nodes[..i + 1] == nodes[..i] + [node];
        fault := Check(i, node, previous, seen);
        if fault.Some? {
          FirstFaultIsUnique(hash, nodes, fault.value, fault.value);
          return;
        }
        VerifiedExtended(hash, nodes[..i], node);
        forall id ensures id in seen + {node.body.eventId} <==> HasEvent(nodes[..i + 1], id) {
          if HasEvent(nodes[..i], id) {
            var k :| 0 <= k < i && nodes[..i][k].body.eventId == id;
            assert nodes[..i + 1][k].body.eventId == id;
          }
          if id == node.body.eventId {
            assert nodes[..i + 1][i].body.eventId == id;
          }
        }
        seen := seen + {node.body.eventId};
        previous := node.nodeHash;
      }
      assert nodes[..|nodes|] == nodes;
      return None;
    }

    /** The four checks of one node. */
    method Check(i: nat, node: Node, previous: string, seen: set<string>) returns (fault: Option<Fault>)
      ensures fault.None? <==>
                node.body.sequence == i && node.body.eventId !in seen && node.body.previousHash == previous
                && node.nodeHash == hash(node.body)
      ensures fault.Some? ==>
                match fault.value
                case NotContiguous(at) => at == i && node.body.sequence != i
                case RepeatedEvent(at) => at == i == node.body.sequence && node.body.eventId in seen
                case LinkBroken(at) =>
                  at == i == node.body.sequence && node.body.eventId !in seen && node.body.previousHash != previous
                case Mutated(at) =>
                  at == i == node.body.sequence && node.body.eventId !in seen && node.body.previousHash == previous
    {
      if node.body.sequence != i {
        return Some(NotContiguous(i));
      }
      if node.body.eventId in seen {
        return Some(RepeatedEvent(i));
      }
      if node.body.previousHash != previous {
        return Some(LinkBroken(i));
      }
      if node.nodeHash != hash(node.body) {
        return Some(Mutated(i));
      }
      return None;
    }
  }
}
