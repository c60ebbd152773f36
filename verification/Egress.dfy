/** Open connections of an agent, registered and terminated under one lock while the runtime they
    depend on changes under another.
    Source: src/agent_containment/egress.py, `EgressController`, and the terminate stage of
    `ContainmentController.contain` in src/agent_containment/containment.py. */
module Egress {
  import opened Wrappers
  import opened RuntimeModel

  /** A connection: its identifier, and the terminator of the registration that added it. */
  datatype Entry = Entry(id: string, terminator: nat)

  /** One agent's inner dict, in insertion order. */
  type Connections = seq<Entry>

  /** The first place at which the identifier is known, or the length. */
  function First(cs: Connections, id: string): (k: nat)
    ensures k <= |cs| && (k < |cs| ==> cs[k].id == id) && forall i :: 0 <= i < k ==> cs[i].id != id
  {
    if cs == [] || cs[0].id == id then 0 else 1 + First(cs[1..], id)
  }

  /** `d[id] = terminator`: a new key goes to the end, a known one keeps its place. */
  function Insert(cs: Connections, e: Entry): Connections {
    var k := First(cs, e.id);
    if k == |cs| then cs + [e] else cs[k := e]
  }

  /** `d.pop(id, None)` */
  function Remove(cs: Connections, id: string): Connections {
    var k := First(cs, id);
    if k == |cs| then cs else cs[..k] + cs[k + 1..]
  }

  ghost predicate Distinct(cs: Connections) {
    forall i, j :: 0 <= i < j < |cs| ==> cs[i].id != cs[j].id && cs[i].terminator != cs[j].terminator
  }

  lemma {:induction false} InsertDistinct(cs: Connections, e: Entry)
    requires Distinct(cs) && forall x :: x in cs ==> x.terminator != e.terminator
    ensures Distinct(Insert(cs, e)) && forall x :: x in Insert(cs, e) ==> x == e || x in cs
  {
    var k := First(cs, e.id);
    forall i | 0 <= i < |cs| && i != k ensures cs[i].id != e.id && cs[i].terminator != e.terminator {
      assert cs[i] in cs;
      if k < i {
        assert cs[k].id == e.id;
      }
    }
  }

  lemma {:induction false} RemoveDistinct(cs: Connections, id: string)
    requires Distinct(cs)
    ensures Distinct(Remove(cs, id)) && forall x :: x in Remove(cs, id) ==> x.id != id && x in cs
  {
    var k, r := First(cs, id), Remove(cs, id);
    forall i | 0 <= i < |r| ensures r[i] == cs[if i < k then i else i + 1] && r[i].id != id {
      if k < |cs| && i >= k {
        assert cs[k].id == id;
      }
    }
  }

  // ----- threads -----

  datatype Thread =
    // register_connection: wait for the lock, check, insert, release
    | Registering(agentId: string, id: string)
    | Checking(agentId: string, id: string)
    | Inserting(id: string)
    | Registered
    | Refused
    // unregister_connection
    | Unregistering(agentId: string, id: string)
    | Unregistered
    // contain: fence the runtime, take every terminator under the lock, call them without it
    | Fencing
    | Sweeping
    | Calling(taken: Connections, k: nat)
    | Swept(taken: Connections)

  datatype TermCall = TermCall(sweep: nat, entry: Entry, raised: bool)

  datatype Sys = Sys(world: World, holder: Option<nat>, connections: Connections, threads: seq<Thread>,
                     calls: seq<TermCall>)

  datatype Event =
    | Start(thread: Thread)
    // the thread takes its next step; `raises` says whether a terminator called then raises
    | Move(t: nat, raises: bool)
    | Interfere(op: Op)

  predicate Initial(thread: Thread) {
    thread.Registering? || thread.Unregistering? || thread.Fencing?
  }

  function At(s: Sys, t: nat, thread: Thread): Sys
    requires t < |s.threads|
  {
    s.(threads := s.threads[t := thread])
  }

  function Take(s: Sys, t: nat, raises: bool): Sys
    requires t < |s.threads|
  {
    match s.threads[t]
    case Registering(a, id) => if s.holder.None? then At(s, t, Checking(a, id)).(holder := Some(t)) else s
    case Checking(a, id) =>
      if a != s.world.rt.agentId || !s.world.rt.CanExecute() then At(s, t, Refused).(holder := None)
      else At(s, t, Inserting(id))
    case Inserting(id) => At(s, t, Registered).(connections := Insert(s.connections, Entry(id, t)), holder := None)
    case Unregistering(a, id) =>
      if s.holder.Some? then s
      else if a != s.world.rt.agentId then At(s, t, Unregistered)
      else At(s, t, Unregistered).(connections := Remove(s.connections, id))
    case Fencing => At(s, t, Sweeping).(world := Apply(s.world, OpContain))
    case Sweeping => if s.holder.None? then At(s, t, Calling(s.connections, 0)).(connections := []) else s
    case Calling(taken, k) =>
      if k >= |taken| then At(s, t, Swept(taken))
      else At(s, t, Calling(taken, k + 1)).(calls := s.calls + [TermCall(t, taken[k], raises)])
    case _ => s
  }

  function Step(s: Sys, e: Event): Sys {
    match e
    case Start(thread) => if Initial(thread) then s.(threads := s.threads + [thread]) else s
    case Move(t, raises) => if t < |s.threads| then Take(s, t, raises) else s
    case Interfere(op) => s.(world := Apply(s.world, op))
  }

  function Run(s: Sys, events: seq<Event>): Sys
    decreases events
  {
    if events == [] then s else Run(Step(s, events[0]), events[1..])
  }

  predicate Idle(s: Sys) {
    s.holder.None? && s.connections == [] && s.threads == [] && s.calls == []
  }

  // ----- mutual exclusion -----

  predicate InSection(thread: Thread) {
    thread.Checking? || thread.Inserting?
  }

  /** The lock is held exactly by the one thread between its check and its insertion. */
  ghost predicate Exclusive(s: Sys) {
    && (s.holder.Some? ==> s.holder.value < |s.threads| && InSection(s.threads[s.holder.value]))
    && (forall t :: 0 <= t < |s.threads| && InSection(s.threads[t]) ==> s.holder == Some(t))
  }

  lemma {:induction false} ExclusiveRun(s: Sys, events: seq<Event>)
    requires Exclusive(s)
    ensures Exclusive(Run(s, events))
    decreases events
  {
    if events != [] {
      ExclusiveStep(s, events[0]);
      ExclusiveRun(Step(s, events[0]), events[1..]);
    }
  }

  lemma ExclusiveStep(s: Sys, e: Event)
    requires Exclusive(s)
    ensures Exclusive(Step(s, e))
  {}

  // ----- nothing outlives containment -----

  /** The runtime is not executable now, nor after any of the events. */
  predicate NeverExecutable(s: Sys, events: seq<Event>)
    decreases events
  {
    !s.world.rt.CanExecute() && (events == [] || NeverExecutable(Step(s, events[0]), events[1..]))
  }

  /** The terminate stage takes effect: thread `t` takes every terminator. */
  predicate TakesAll(s: Sys, t: nat) {
    t < |s.threads| && s.threads[t].Sweeping? && s.holder.None?
  }

  ghost predicate NoneInserting(s: Sys) {
    forall t :: 0 <= t < |s.threads| ==> !s.threads[t].Inserting?
  }

  lemma {:induction false} StaysEmpty(s: Sys, events: seq<Event>)
    requires s.connections == [] && NoneInserting(s) && NeverExecutable(s, events)
    ensures Run(s, events).connections == []
    decreases events
  {
    if events != [] {
      var t := Step(s, events[0]);
      StaysEmpty(t, events[1..]);
    }
  }

  /** No connection outlives containment: in every interleaving, from the moment a containment takes
      the terminators the registry is empty, and it stays empty as long as the runtime is not
      executable, even against registrations that passed their check before the fence. */
  lemma {:induction false} NoConnectionOutlivesContainment(s0: Sys, before: seq<Event>, t: nat, raises: bool,
                                                           after: seq<Event>)
    requires Idle(s0) && TakesAll(Run(s0, before), t)
    requires NeverExecutable(Step(Run(s0, before), Move(t, raises)), after)
    ensures Run(Step(Run(s0, before), Move(t, raises)), after).connections == []
  {
    ExclusiveRun(s0, before);
    var s := Run(s0, before);
    StaysEmpty(Step(s, Move(t, raises)), after);
  }

  // ----- every terminator taken is called exactly once -----

  predicate HasTaken(thread: Thread) {
    thread.Calling? || thread.Swept?
  }

  function Taken(thread: Thread): Connections {
    if HasTaken(thread) then thread.taken else []
  }

  /** How many of the taken terminators have been called. */
  function Done(thread: Thread): nat {
    match thread
    case Calling(taken, k) => k
    case Swept(taken) => |taken|
    case _ => 0
  }

  ghost predicate Owned(s: Sys, cs: Connections) {
    Distinct(cs) && forall i :: 0 <= i < |cs| ==>
        cs[i].terminator < |s.threads| && s.threads[cs[i].terminator].Registered?
  }

  ghost predicate Apart(cs: Connections, ds: Connections) {
    forall i, j :: 0 <= i < |cs| && 0 <= j < |ds| ==> cs[i].terminator != ds[j].terminator
  }

  /** A terminator is in the registry or with one sweep, never in two places. */
  ghost predicate Placed(s: Sys) {
    && Owned(s, s.connections)
    && (forall t :: 0 <= t < |s.threads| ==>
          Owned(s, Taken(s.threads[t])) && Apart(s.connections, Taken(s.threads[t])))
    && (forall t, u :: 0 <= t < u < |s.threads| ==> Apart(Taken(s.threads[t]), Taken(s.threads[u])))
  }

  /** The terminators sweep `t` has called, in order. */
  function CallsBy(calls: seq<TermCall>, t: nat): Connections {
    if calls == [] then []
    else
      var last := calls[|calls| - 1];
      CallsBy(calls[..|calls| - 1], t) + if last.sweep == t then [last.entry] else []
  }

  /** Every sweep has called exactly the part of its terminators it has got to. */
  ghost predicate Tallied(s: Sys) {
    && (forall i :: 0 <= i < |s.calls| ==> s.calls[i].sweep < |s.threads|)
    && (forall t :: 0 <= t < |s.threads| ==>
          && Done(s.threads[t]) <= |Taken(s.threads[t])|
          && CallsBy(s.calls, t) == Taken(s.threads[t])[..Done(s.threads[t])])
  }

  lemma {:induction false} NoCallsBy(calls: seq<TermCall>, t: nat)
    requires forall i :: 0 <= i < |calls| ==> calls[i].sweep != t
    ensures CallsBy(calls, t) == []
  {
    if calls != [] {
      NoCallsBy(calls[..|calls| - 1], t);
    }
  }

  lemma {:induction false} TalliedCall(s: Sys, r: nat, raises: bool)
    requires Tallied(s) && r < |s.threads| && s.threads[r].Calling? && s.threads[r].k < |s.threads[r].taken|
    ensures Tallied(Take(s, r, raises))
  {
    var t := Take(s, r, raises);
    var taken, k := s.threads[r].taken, s.threads[r].k;
    assert t.calls[..|t.calls| - 1] == s.calls;
    assert taken[..k + 1] == taken[..k] + [taken[k]];
    forall u | 0 <= u < |t.threads|
      ensures Done(t.threads[u]) <= |Taken(t.threads[u])|
              && CallsBy(t.calls, u) == Taken(t.threads[u])[..Done(t.threads[u])]
    {
      assert CallsBy(s.calls, u) == Taken(s.threads[u])[..Done(s.threads[u])];
    }
  }

  predicate Calls(s: Sys, e: Event) {
    e.Move? && e.t < |s.threads| && s.threads[e.t].Calling? && s.threads[e.t].k < |s.threads[e.t].taken|
  }

  /** A step that calls nothing leaves each sweep's tally as it is; a sweep that begins or ends there
      has called nothing or everything. */
  lemma TalliedThread(s: Sys, e: Event, u: nat)
    requires Tallied(s) && e.Move? && !Calls(s, e) && u < |s.threads|
    ensures var t := Step(s, e);
            && |t.threads| == |s.threads| && t.calls == s.calls
            && Done(t.threads[u]) <= |Taken(t.threads[u])|
            && Taken(t.threads[u])[..Done(t.threads[u])] == Taken(s.threads[u])[..Done(s.threads[u])]
  {
    assert Done(s.threads[u]) <= |Taken(s.threads[u])|;
  }

  lemma TalliedOther(s: Sys, e: Event)
    requires Tallied(s) && e.Move? && !Calls(s, e)
    ensures Tallied(Step(s, e))
  {
    var t := Step(s, e);
    if s.threads != [] {
      TalliedThread(s, e, 0);
    }
    forall u | 0 <= u < |s.threads|
      ensures Done(t.threads[u]) <= |Taken(t.threads[u])|
              && CallsBy(t.calls, u) == Taken(t.threads[u])[..Done(t.threads[u])]
    {
      TalliedThread(s, e, u);
    }
  }

  lemma {:induction false} TalliedStep(s: Sys, e: Event)
    requires Tallied(s)
    ensures Tallied(Step(s, e))
  {
    if e.Start? {
      NoCallsBy(s.calls, |s.threads|);
    } else if Calls(s, e) {
      TalliedCall(s, e.t, e.raises);
    } else if e.Move? {
      TalliedOther(s, e);
    }
  }

  lemma OwnedKept(s: Sys, t: Sys, cs: Connections)
    requires Owned(s, cs) && |s.threads| <= |t.threads|
    requires forall r :: 0 <= r < |s.threads| && s.threads[r].Registered? ==> t.threads[r].Registered?
    ensures Owned(t, cs)
  {}

  /** Nothing a thread has taken changes, except when it takes. */
  lemma {:induction false} PlacedUnchanged(s: Sys, t: Sys)
    requires Placed(s) && t.connections == s.connections && |s.threads| <= |t.threads|
    requires forall r :: 0 <= r < |s.threads| ==> Taken(t.threads[r]) == Taken(s.threads[r])
    requires forall r :: |s.threads| <= r < |t.threads| ==> Taken(t.threads[r]) == []
    requires forall r :: 0 <= r < |s.threads| && s.threads[r].Registered? ==> t.threads[r].Registered?
    ensures Placed(t)
  {
    OwnedKept(s, t, s.connections);
    forall r | 0 <= r < |t.threads| ensures Owned(t, Taken(t.threads[r])) {
      if r < |s.threads| {
        OwnedKept(s, t, Taken(s.threads[r]));
      }
    }
  }

  /** Only the registry itself changes. */
  lemma {:induction false} PlacedReplaced(s: Sys, t: Sys)
    requires Placed(s) && |s.threads| == |t.threads|
    requires forall r :: 0 <= r < |s.threads| ==> Taken(t.threads[r]) == Taken(s.threads[r])
    requires forall r :: 0 <= r < |s.threads| && s.threads[r].Registered? ==> t.threads[r].Registered?
    requires Owned(t, t.connections)
    requires forall r :: 0 <= r < |s.threads| ==> Apart(t.connections, Taken(s.threads[r]))
    ensures Placed(t)
  {
    forall r | 0 <= r < |t.threads| ensures Owned(t, Taken(t.threads[r])) {
      OwnedKept(s, t, Taken(s.threads[r]));
    }
  }

  lemma ApartFromMore(cs: Connections, more: Connections, ds: Connections, e: Entry)
    requires Apart(cs, ds) && forall x :: x in more ==> x == e || x in cs
    requires forall i :: 0 <= i < |ds| ==> ds[i].terminator != e.terminator
    ensures Apart(more, ds)
  {
    forall i, j | 0 <= i < |more| && 0 <= j < |ds| ensures more[i].terminator != ds[j].terminator {
      assert more[i] in more;
    }
  }

  lemma {:induction false} PlacedInsert(s: Sys, r: nat)
    requires Placed(s) && r < |s.threads| && s.threads[r].Inserting?
    ensures Placed(Take(s, r, false))
  {
    var t := Take(s, r, false);
    var e := Entry(s.threads[r].id, r);
    assert forall x :: x in s.connections ==> x.terminator != r;
    InsertDistinct(s.connections, e);
    forall i | 0 <= i < |t.connections|
      ensures t.connections[i].terminator < |t.threads| && t.threads[t.connections[i].terminator].Registered?
    {
      assert t.connections[i] in t.connections;
    }
    forall u | 0 <= u < |s.threads| ensures Apart(t.connections, Taken(s.threads[u])) {
      ApartFromMore(s.connections, t.connections, Taken(s.threads[u]), e);
    }
    PlacedReplaced(s, t);
  }

  predicate Removes(s: Sys, r: nat) {
    && r < |s.threads| && s.threads[r].Unregistering? && s.threads[r].agentId == s.world.rt.agentId
    && s.holder.None? && s.connections != []
  }

  lemma {:induction false} PlacedRemove(s: Sys, r: nat)
    requires Placed(s) && Removes(s, r)
    ensures Placed(Take(s, r, false))
  {
    var t := Take(s, r, false);
    RemoveDistinct(s.connections, s.threads[r].id);
    forall i | 0 <= i < |t.connections|
      ensures t.connections[i].terminator < |t.threads| && t.threads[t.connections[i].terminator].Registered?
    {
      assert t.connections[i] in t.connections;
    }
    forall u | 0 <= u < |s.threads| ensures Apart(t.connections, Taken(s.threads[u])) {
      ApartFromMore(s.connections, t.connections, Taken(s.threads[u]), s.connections[0]);
    }
    PlacedReplaced(s, t);
  }

  lemma {:induction false} PlacedTake(s: Sys, r: nat)
    requires Placed(s) && TakesAll(s, r)
    ensures Placed(Take(s, r, false))
  {
    var t := Take(s, r, false);
    forall u | 0 <= u < |t.threads| ensures Owned(t, Taken(t.threads[u])) {
      OwnedKept(s, t, if u == r then s.connections else Taken(s.threads[u]));
    }
  }

  predicate Rewrites(s: Sys, e: Event) {
    e.Move? && e.t < |s.threads| && (s.threads[e.t].Inserting? || Removes(s, e.t) || TakesAll(s, e.t))
  }

  lemma OtherSteps(s: Sys, e: Event)
    requires !Rewrites(s, e)
    ensures var t := Step(s, e);
            && t.connections == s.connections && |s.threads| <= |t.threads|
            && (forall r :: 0 <= r < |s.threads| ==>
                  Taken(t.threads[r]) == Taken(s.threads[r]) && (s.threads[r].Registered? ==> t.threads[r].Registered?))
            && (forall r :: |s.threads| <= r < |t.threads| ==> Taken(t.threads[r]) == [])
  {}

  lemma {:induction false} PlacedStep(s: Sys, e: Event)
    requires Placed(s)
    ensures Placed(Step(s, e))
  {
    if !Rewrites(s, e) {
      OtherSteps(s, e);
      PlacedUnchanged(s, Step(s, e));
    } else if s.threads[e.t].Inserting? {
      PlacedInsert(s, e.t);
    } else if s.threads[e.t].Unregistering? {
      PlacedRemove(s, e.t);
    } else {
      PlacedTake(s, e.t);
    }
  }

  lemma {:induction false} PlacedRun(s: Sys, events: seq<Event>)
    requires Placed(s) && Tallied(s)
    ensures Placed(Run(s, events)) && Tallied(Run(s, events))
    decreases events
  {
    if events != [] {
      PlacedStep(s, events[0]);
      TalliedStep(s, events[0]);
      PlacedRun(Step(s, events[0]), events[1..]);
    }
  }

  lemma TerminatorsOnce(s: Sys, t: nat, u: nat)
    requires Placed(s) && Tallied(s) && t < |s.threads| && s.threads[t].Swept? && u < |s.threads|
    ensures var taken := s.threads[t].taken;
            && CallsBy(s.calls, t) == taken
            && Distinct(taken)
            && Apart(s.connections, taken)
            && (u != t ==> Apart(Taken(s.threads[u]), taken) && Apart(CallsBy(s.calls, u), taken))
  {
    if u < t {
      assert Apart(Taken(s.threads[u]), Taken(s.threads[t]));
    } else if t < u {
      assert Apart(Taken(s.threads[t]), Taken(s.threads[u]));
    }
  }

  /** In every interleaving, a sweep that is over has called each terminator it took exactly once and
      in order, whether or not others raised; no two sweeps took the same one, and none that is still
      registered has been taken. */
  lemma {:induction false} EveryTerminatorOnce(s0: Sys, events: seq<Event>, t: nat, u: nat)
    requires Idle(s0)
    requires var s := Run(s0, events); t < |s.threads| && s.threads[t].Swept? && u < |s.threads|
    ensures var s := Run(s0, events);
            var taken := s.threads[t].taken;
            && CallsBy(s.calls, t) == taken
            && Distinct(taken)
            && Apart(s.connections, taken)
            && (u != t ==> Apart(Taken(s.threads[u]), taken) && Apart(CallsBy(s.calls, u), taken))
  {
    PlacedRun(s0, events);
    TerminatorsOnce(Run(s0, events), t, u);
  }

  // ----- threads nobody interferes with -----

  lemma {:induction false} RunLast(s: Sys, events: seq<Event>, e: Event)
    ensures Run(s, events + [e]) == Step(Run(s, events), e)
    decreases events
  {
    if events == [] {
      assert ([] + [e])[1..] == [];
    } else {
      assert (events + [e])[1..] == events[1..] + [e];
      RunLast(Step(s, events[0]), events[1..], e);
    }
  }

  /** A registration goes through exactly for the runtime's own agent while it is executable, and leaves the
      lock free. */
  lemma {:induction false} RegistersAlone(s: Sys, a: string, id: string)
    requires s.holder.None?
    ensures var t := |s.threads|; var ok := a == s.world.rt.agentId && s.world.rt.state == Active;
            Run(s, [Start(Registering(a, id))] + [Move(t, false)] + [Move(t, false)] + [Move(t, false)])
            == s.(connections := if ok then Insert(s.connections, Entry(id, t)) else s.connections,
                  threads := s.threads + [if ok then Registered else Refused])
  {
    var t := |s.threads|;
    var first := [Start(Registering(a, id))];
    RunLast(s, [], first[0]);
    assert [] + [first[0]] == first;
    RunLast(s, first, Move(t, false));
    RunLast(s, first + [Move(t, false)], Move(t, false));
    RunLast(s, first + [Move(t, false)] + [Move(t, false)], Move(t, false));
    var s1 := Step(s, first[0]);
    var s2 := Take(s1, t, false);
    assert s2 == s.(threads := s.threads + [Checking(a, id)], holder := Some(t));
    var s3 := Take(s2, t, false);
    assert s3.threads == s.threads + [s3.threads[t]];
  }

  lemma {:induction false} UnregistersAlone(s: Sys, a: string, id: string)
    requires s.holder.None?
    ensures Run(s, [Start(Unregistering(a, id))] + [Move(|s.threads|, false)])
         == s.(connections := if a == s.world.rt.agentId then Remove(s.connections, id) else s.connections,
               threads := s.threads + [Unregistered])
  {
    var first := [Start(Unregistering(a, id))];
    RunLast(s, [], first[0]);
    assert [] + [first[0]] == first;
    RunLast(s, first, Move(|s.threads|, false));
  }

  function Answers(t: nat, raises: seq<bool>): seq<Event> {
    if raises == [] then [] else Answers(t, raises[..|raises| - 1]) + [Move(t, raises[|raises| - 1])]
  }

  function CallsOf(t: nat, taken: Connections, raises: seq<bool>): (calls: seq<TermCall>)
    requires |raises| <= |taken|
    ensures |calls| == |raises| && forall i :: 0 <= i < |calls| ==> calls[i] == TermCall(t, taken[i], raises[i])
  {
    seq(|raises|, i requires 0 <= i < |raises| => TermCall(t, taken[i], raises[i]))
  }

  lemma {:induction false} CallsAlone(s: Sys, t: nat, taken: Connections, raises: seq<bool>)
    requires t < |s.threads| && s.threads[t] == Calling(taken, 0) && |raises| <= |taken|
    ensures Run(s, Answers(t, raises))
         == s.(threads := s.threads[t := Calling(taken, |raises|)], calls := s.calls + CallsOf(t, taken, raises))
  {
    if raises != [] {
      var n := |raises| - 1;
      CallsAlone(s, t, taken, raises[..n]);
      RunLast(s, Answers(t, raises[..n]), Move(t, raises[n]));
      assert CallsOf(t, taken, raises) == CallsOf(t, taken, raises[..n]) + [TermCall(t, taken[n], raises[n])];
    }
  }

  /** A containment fences the runtime first, then takes every connection, then calls each terminator, in
      order, whoever raises. */
  lemma {:induction false} SweepsAlone(s: Sys, raises: seq<bool>)
    requires s.holder.None? && |raises| == |s.connections|
    ensures var t := |s.threads|; var rt := s.world.rt;
            var taken := Run(s, [Start(Fencing)] + [Move(t, false)] + [Move(t, false)]);
            && taken == s.(threads := s.threads + [Calling(s.connections, 0)], connections := [],
                           world := World(rt.(state := Contained, epoch := rt.epoch + 1, proof := s.world.next),
                                          s.world.next + 1))
            && Run(taken, Answers(t, raises) + [Move(t, false)])
               == taken.(threads := s.threads + [Swept(s.connections)],
                         calls := s.calls + CallsOf(t, s.connections, raises))
  {
    var t := |s.threads|;
    RunLast(s, [], Start(Fencing));
    assert [] + [Start(Fencing)] == [Start(Fencing)];
    RunLast(s, [Start(Fencing)], Move(t, false));
    RunLast(s, [Start(Fencing)] + [Move(t, false)], Move(t, false));
    var taken := Run(s, [Start(Fencing)] + [Move(t, false)] + [Move(t, false)]);
    assert taken.threads == s.threads + [Calling(s.connections, 0)];
    CallsAlone(taken, t, s.connections, raises);
    RunLast(taken, Answers(t, raises), Move(t, false));
  }

  // ----- the controller object -----

  class EgressController {
    const runtime: Runtime
    var connections: map<string, Connections>
    /** Every terminator call made so far, with whether it raised. */
    var called: seq<(Entry, bool)>

    /** Connections are kept for the runtime's own agent only, and never as an empty dict. */
    ghost predicate Valid()
      reads this
    {
      forall a :: a in connections ==> a == runtime.agentId && connections[a] != []
    }

    constructor (runtime: Runtime)
      ensures Valid() && this.runtime == runtime && connections == map[] && called == []
    {
      this.runtime := runtime;
      connections := map[];
      called := [];
    }

    function Of(agentId: string): Connections
      reads this
    {
      if agentId in connections then connections[agentId] else []
    }

    method RegisterConnection(agentId: string, e: Entry) returns (ok: bool)
      requires Valid()
      modifies `connections
      ensures Valid()
      ensures ok <==> agentId == runtime.agentId && runtime.View().CanExecute()
      ensures forall a :: Of(a) == if ok && a == agentId then Insert(old(Of(a)), e) else old(Of(a))
      // A new identifier goes to the end; a known one keeps its place.
      ensures ok ==>
                var cs := old(Of(agentId)); var k := First(cs, e.id);
                Of(agentId) == if k == |cs| then cs + [e] else cs[k := e]
    {
      if agentId != runtime.agentId || runtime.state != Active {
        return false;
      }
      connections := connections[agentId := Insert(Of(agentId), e)];
      return true;
    }

    method UnregisterConnection(agentId: string, id: string)
      requires Valid()
      modifies `connections
      ensures Valid()
      ensures forall a :: Of(a) == if a == agentId then Remove(old(Of(a)), id) else old(Of(a))
      ensures var cs := old(Of(agentId)); var k := First(cs, id);
              Of(agentId) == if k == |cs| then cs else cs[..k] + cs[k + 1..]
    {
      if agentId in connections {
        var rest := Remove(connections[agentId], id);
        connections := if rest == [] then connections - {agentId} else connections[agentId := rest];
      }
    }

    /** The loop over the terminators, whoever raises. */
    method CallEach(terminators: Connections, raises: set<nat>) returns (terminated: nat)
      modifies `called
      ensures called == old(called) + Outcomes(terminators, raises) && terminated == Quiet(terminators, raises)
    {
      terminated := 0;
      for i := 0 to |terminators|
        invariant called == old(called) + Outcomes(terminators[..i], raises)
        invariant terminated == Quiet(terminators[..i], raises)
      {
        assert terminators[..i + 1][..i] == terminators[..i];
        var raised := terminators[i].terminator in raises;
        called := called + [(terminators[i], raised)];
        if !raised {
          terminated := terminated + 1;
        }
      }
      assert terminators[..|terminators|] == terminators;
    }

    /** Take everything, then call everything. An empty agent id means the runtime's own. `raises`
        says which terminators raise. */
    method TerminateAll(agentId: string, raises: set<nat>) returns (terminated: nat)
      requires Valid()
      modifies `connections, `called
      ensures Valid()
      ensures var target := if agentId == "" then runtime.agentId else agentId;
              && (forall a :: Of(a) == if a == target then [] else old(Of(a)))
              && called == old(called) + Outcomes(old(Of(target)), raises)
              && terminated == Quiet(old(Of(target)), raises)
      // The count is of those that did not raise.
      ensures var taken := old(Of(if agentId == "" then runtime.agentId else agentId));
              terminated == |set i | 0 <= i < |taken| && taken[i].terminator !in raises|
    {
      var target := if agentId == "" then runtime.agentId else agentId;
      var terminators := Of(target);
      connections := connections - {target};
      terminated := CallEach(terminators, raises);
      QuietCounts(terminators, raises);
    }
  }

  /** One call a terminator, in order. */
  function Outcomes(cs: Connections, raises: set<nat>): (calls: seq<(Entry, bool)>)
    ensures |calls| == |cs|
    ensures forall i :: 0 <= i < |cs| ==> calls[i] == (cs[i], cs[i].terminator in raises)
  {
    if cs == [] then []
    else var e := cs[|cs| - 1]; Outcomes(cs[..|cs| - 1], raises) + [(e, e.terminator in raises)]
  }

  /** How many of the terminators do not raise. */
  function Quiet(cs: Connections, raises: set<nat>): nat {
    if cs == [] then 0
    else Quiet(cs[..|cs| - 1], raises) + if cs[|cs| - 1].terminator in raises then 0 else 1
  }

  lemma {:induction false} QuietCounts(cs: Connections, raises: set<nat>)
    ensures Quiet(cs, raises) == |set i | 0 <= i < |cs| && cs[i].terminator !in raises|
  {
    if cs != [] {
      var n := |cs| - 1;
      var front := cs[..n];
      QuietCounts(front, raises);
      var before := set i | 0 <= i < |front| && front[i].terminator !in raises;
      var all := set i | 0 <= i < |cs| && cs[i].terminator !in raises;
      assert all == before + if cs[n].terminator in raises then {} else {n};
    }
  }
}
