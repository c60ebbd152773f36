/** `authorize`: a snapshot under the service lock, an unlocked membership check, and a revalidation
    under the lock again, by any number of calls, while other threads issue tokens, contain, halt,
    recover, unregister and register again.
    Source: src/agent_containment/control.py, `authorize`, `issue_identity_token`, `_revoke_identity`. */
module Authorization {
  import opened Wrappers
  import opened RuntimeModel
  import opened Policy

  /** A token is the identity drawn for it, and so is its digest: SHA-256 is taken to be injective and
      `secrets.token_urlsafe` never to repeat. */
  type Token = Id

  /** One `ManagedAgent` object. */
  datatype Entry = Entry(
    serial: nat,
    runtime: nat,
    digest: Option<Token>,
    pid: Option<int>,
    cgroup: Option<string>,
    trace: seq<string>)

  /** What the first locked section reads. */
  datatype Snapshot = Snapshot(entry: Entry, epoch: nat)

  datatype Stage =
    | Entered
    // holding the lock, about to read whether the runtime is executable
    | ReadingState(seen: Snapshot)
    // without the lock, about to check the identity
    | Checking(seen: Snapshot, active: bool)
    // about to take the lock again and compare the identity
    | Returning(seen: Snapshot)
    // holding the lock: the runtime's state, then its epoch, then the policy
    | RereadingState(seen: Snapshot)
    | RereadingEpoch(seen: Snapshot)
    | Judging(seen: Snapshot)
    | Halting(seen: Snapshot)
    | Decided(decision: DecisionType)
    | Raised

  datatype Call = Call(action: Action, token: Option<Token>, peerPid: Option<int>, stage: Stage)

  /** Identity events of the agent, in order. */
  datatype Mark = Issued(token: Token) | Revoked

  datatype Sys = Sys(
    config: Config,
    entry: Option<Entry>,
    runtimes: seq<Rt>,
    next: Id,
    holder: Option<nat>,
    calls: seq<Call>,
    marks: seq<Mark>)

  datatype Event =
    | Begin(action: Action, token: Option<Token>, peerPid: Option<int>)
    // `member`: what the membership predicate answers
    | Move(c: nat, member: bool)
    | CreateWorkload(cgroup: string)
    | IssueToken(pid: Option<int>)
    | ContainAgent
    | Unregister
    | RegisterFresh(state: RuntimeState, epoch: nat)
    | RegisterAgain(runtime: nat)
    // threads that hold only a runtime's lock
    | HaltRuntime(r: nat)
    | ContainRuntime(r: nat)
    | RecoverRuntime(r: nat, presented: Id, expected: int)

  function SetRuntime(s: Sys, r: nat, rt: Rt): Sys
    requires r < |s.runtimes|
  {
    s.(runtimes := s.runtimes[r := rt], next := s.next + 1)
  }

  function SetStage(s: Sys, c: nat, stage: Stage): Sys
    requires c < |s.calls|
  {
    s.(calls := s.calls[c := s.calls[c].(stage := stage)])
  }

  /** The conjunction checked without the lock. */
  predicate Authenticated(call: Call, seen: Entry, member: bool) {
    && call.token.Some? && seen.digest == call.token
    && (seen.pid.None? || call.peerPid == seen.pid)
    && seen.cgroup.Some? && call.peerPid.Some? && member
  }

  predicate SameIdentity(a: Entry, b: Entry) {
    a.digest == b.digest && a.pid == b.pid && a.cgroup == b.cgroup
  }

  /** A stage at which the call holds the service lock. */
  predicate Holding(stage: Stage) {
    stage.ReadingState? || stage.RereadingState? || stage.RereadingEpoch? || stage.Judging?
  }

  /** Where the call gets to; a call that has to wait for the lock stays where it is. */
  ghost function Next(s: Sys, call: Call, member: bool): Stage
    requires s.entry.Some? ==> s.entry.value.runtime < |s.runtimes|
  {
    match call.stage
    case Entered =>
      if s.holder.Some? then call.stage
      else if s.entry.None? then Raised
      else ReadingState(Snapshot(s.entry.value, s.runtimes[s.entry.value.runtime].epoch))
    case ReadingState(seen) =>
      if seen.entry.runtime >= |s.runtimes| then call.stage
      else Checking(seen, s.runtimes[seen.entry.runtime].CanExecute())
    case Checking(seen, active) =>
      if Authenticated(call, seen.entry, member) && active then Returning(seen) else Decided(Deny)
    case Returning(seen) =>
      if s.holder.Some? then call.stage
      else if s.entry.None? then Raised
      else if SameIdentity(s.entry.value, seen.entry) then RereadingState(seen)
      else Decided(Deny)
    case RereadingState(seen) =>
      if s.entry.None? then call.stage
      else if s.runtimes[s.entry.value.runtime].CanExecute() then RereadingEpoch(seen)
      else Decided(Deny)
    case RereadingEpoch(seen) =>
      if s.entry.None? then call.stage
      else if s.runtimes[s.entry.value.runtime].epoch == seen.epoch then Judging(seen)
      else Decided(Deny)
    case Judging(seen) =>
      if s.entry.None? then call.stage
      else
        var decision := Judge(s.config, s.entry.value.trace, call.action).decision;
        if decision == Halt then Halting(seen) else Decided(decision)
    case Halting(seen) => Decided(Halt)
    case _ => call.stage
  }

  ghost function Take(s: Sys, c: nat, member: bool): Sys
    requires c < |s.calls| && (s.entry.Some? ==> s.entry.value.runtime < |s.runtimes|)
  {
    var call, next := s.calls[c], Next(s, s.calls[c], member);
    var t := SetStage(s, c, next).(holder := if Holding(next) then Some(c) else if Holding(call.stage) then None
                                   else s.holder);
    if call.stage.Judging? && s.entry.Some? then
      t.(entry := Some(s.entry.value.(trace := Judge(s.config, s.entry.value.trace, call.action).trace)))
    else if call.stage.Halting? && call.stage.seen.entry.runtime < |s.runtimes| then
      SetRuntime(t, call.stage.seen.entry.runtime, s.runtimes[call.stage.seen.entry.runtime].Halt(s.next))
    else t
  }

  ghost function Step(s: Sys, e: Event): Sys
    requires s.entry.Some? ==> s.entry.value.runtime < |s.runtimes|
  {
    match e
    case Begin(action, token, peerPid) => s.(calls := s.calls + [Call(action, token, peerPid, Entered)])
    case Move(c, member) => if c < |s.calls| then Take(s, c, member) else s
    case HaltRuntime(r) => if r < |s.runtimes| then SetRuntime(s, r, s.runtimes[r].Halt(s.next)) else s
    case ContainRuntime(r) => if r < |s.runtimes| then SetRuntime(s, r, s.runtimes[r].Contain(s.next)) else s
    case RecoverRuntime(r, presented, expected) =>
      if r >= |s.runtimes| then s
      else (match s.runtimes[r].Recover(presented, expected, s.next)
            case Ok(rt) => SetRuntime(s, r, rt)
            case Err(_) => s)
    case _ => if s.holder.Some? then s else Locked(s, e)
  }

  /** What needs the service lock. */
  function Locked(s: Sys, e: Event): Sys
    requires s.entry.Some? ==> s.entry.value.runtime < |s.runtimes|
  {
    match e
    case CreateWorkload(cgroup) =>
      if s.entry.Some? && s.entry.value.cgroup.None? then s.(entry := Some(s.entry.value.(cgroup := Some(cgroup))))
        else s
    case IssueToken(pid) =>
      if s.entry.None? || s.entry.value.cgroup.None? || (pid.Some? && pid.value <= 0) then s
      else s.(entry := Some(s.entry.value.(digest := Some(s.next), pid := pid)), next := s.next + 1,
              marks := s.marks + [Issued(s.next)])
    case ContainAgent =>
      if s.entry.None? then s
      else SetRuntime(s, s.entry.value.runtime, s.runtimes[s.entry.value.runtime].Contain(s.next))
             .(entry := Some(s.entry.value.(digest := None, pid := None)), marks := s.marks + [Revoked])
    case Unregister => s.(entry := None)
    case RegisterFresh(state, epoch) =>
      if s.entry.Some? then s
      else s.(entry := Some(Entry(s.next, |s.runtimes|, None, None, None, [])),
              runtimes := s.runtimes + [Rt("", state, epoch, s.next + 1, s.next + 2)], next := s.next + 3)
    case RegisterAgain(r) =>
      if s.entry.Some? || r >= |s.runtimes| then s
      else s.(entry := Some(Entry(s.next, r, None, None, None, [])),
              runtimes := s.runtimes[r := s.runtimes[r].(capability := s.next + 1)], next := s.next + 2)
    case _ => s
  }

  // ----- invariant -----

  function Seen(stage: Stage): Option<Snapshot> {
    match stage
    case ReadingState(seen) => Some(seen)
    case Checking(seen, _) => Some(seen)
    case Returning(seen) => Some(seen)
    case RereadingState(seen) => Some(seen)
    case RereadingEpoch(seen) => Some(seen)
    case Judging(seen) => Some(seen)
    case Halting(seen) => Some(seen)
    case _ => None
  }

  /** What the second locked section has established so far. */
  predicate Rechecked(stage: Stage) {
    stage.RereadingState? || stage.RereadingEpoch? || stage.Judging?
  }

  /** A snapshot's digest, if it names one, was drawn, and is only ever the digest of the entry the
      snapshot was taken from. */
  ghost predicate SnapshotOk(s: Sys, seen: Snapshot) {
    && seen.entry.runtime < |s.runtimes|
    && (seen.entry.digest.Some? ==> seen.entry.digest.value < s.next)
    && (s.entry.Some? && s.entry.value.digest.Some? && s.entry.value.digest == seen.entry.digest ==>
          s.entry.value.serial == seen.entry.serial && s.entry.value.runtime == seen.entry.runtime)
  }

  ghost predicate CallOk(s: Sys, c: nat)
    requires c < |s.calls|
  {
    var call := s.calls[c];
    && (Seen(call.stage).Some? ==> SnapshotOk(s, Seen(call.stage).value))
    && (Holding(call.stage) ==> s.holder == Some(c))
    && (call.stage.Returning? || Rechecked(call.stage) ==>
          call.token.Some? && Seen(call.stage).value.entry.digest == call.token)
    && (Rechecked(call.stage) ==> s.entry.Some? && SameIdentity(s.entry.value, Seen(call.stage).value.entry))
  }

  ghost predicate EntryOk(s: Sys) {
    s.entry.Some? ==>
      && s.entry.value.runtime < |s.runtimes|
      && (s.entry.value.digest.Some? ==>
            && s.entry.value.digest.value < s.next
            && s.marks != [] && s.marks[|s.marks| - 1] == Issued(s.entry.value.digest.value))
  }

  ghost predicate Valid(s: Sys) {
    EntryOk(s) && forall c {:trigger CallOk(s, c)} :: 0 <= c < |s.calls| ==> CallOk(s, c)
  }

  predicate Initial(s: Sys) {
    s.entry.None? && s.holder.None? && s.calls == []
  }

  /** A call that does not move keeps its invariant, if the lock still protects it and a new digest is
      newly drawn. */
  lemma Frame(s: Sys, t: Sys, c: nat)
    requires c < |s.calls| && c < |t.calls| && CallOk(s, c) && t.calls[c] == s.calls[c]
    requires |s.runtimes| <= |t.runtimes| && s.next <= t.next
    requires Holding(s.calls[c].stage) ==> t.holder == Some(c)
    requires t.entry.Some? && t.entry.value.digest.Some? ==>
               || (s.entry.Some? && t.entry.value.digest == s.entry.value.digest
                   && t.entry.value.serial == s.entry.value.serial && t.entry.value.runtime == s.entry.value.runtime)
               || t.entry.value.digest.value >= s.next
    requires Rechecked(s.calls[c].stage) ==>
              s.entry.Some? && t.entry.Some? && SameIdentity(t.entry.value, s.entry.value)
    ensures CallOk(t, c)
  {}

  lemma {:induction false} BeginOk(s: Sys, e: Event)
    requires Valid(s) && e.Begin?
    ensures Valid(Step(s, e))
  {
    var t := Step(s, e);
    forall c | 0 <= c < |t.calls| ensures CallOk(t, c) {
      if c < |s.calls| {
        assert CallOk(s, c);
        Frame(s, t, c);
      }
    }
  }

  predicate IsLocked(e: Event) {
    e.CreateWorkload? || e.IssueToken? || e.ContainAgent? || e.Unregister? || e.RegisterFresh? || e.RegisterAgain?
  }

  predicate IsThread(e: Event) {
    e.HaltRuntime? || e.ContainRuntime? || e.RecoverRuntime?
  }

  lemma {:induction false} LockedOk(s: Sys, e: Event)
    requires Valid(s) && IsLocked(e) && s.holder.None?
    ensures Valid(Locked(s, e))
  {
    var t := Locked(s, e);
    forall c | 0 <= c < |t.calls| ensures CallOk(t, c) {
      assert CallOk(s, c);
      Frame(s, t, c);
    }
  }

  lemma {:induction false} ThreadOk(s: Sys, e: Event)
    requires Valid(s) && IsThread(e)
    ensures Valid(Step(s, e))
  {
    var t := Step(s, e);
    forall c | 0 <= c < |t.calls| ensures CallOk(t, c) {
      assert CallOk(s, c);
      Frame(s, t, c);
    }
  }

  /** What a call's own step does to everything it shares with the others. */
  lemma TakeShared(s: Sys, c: nat, member: bool)
    requires Valid(s) && c < |s.calls|
    ensures var t := Take(s, c, member);
            && |t.calls| == |s.calls| && |t.runtimes| == |s.runtimes| && s.next <= t.next
            && (forall d :: 0 <= d < |s.calls| && d != c ==> t.calls[d] == s.calls[d])
            && (s.holder.None? || s.holder == Some(c) || t.holder == s.holder)
            && t.entry.Some? == s.entry.Some?
            && (t.entry.Some? ==> t.entry.value.(trace := []) == s.entry.value.(trace := []))
            && t.marks == s.marks
  {
    assert CallOk(s, c);
  }

  lemma SnapshotKept(s: Sys, t: Sys, seen: Snapshot)
    requires SnapshotOk(s, seen) && |t.runtimes| == |s.runtimes| && s.next <= t.next
    requires t.entry.Some? == s.entry.Some?
             && (t.entry.Some? ==> t.entry.value.(trace := []) == s.entry.value.(trace := []))
    ensures SnapshotOk(t, seen)
  {}

  lemma {:induction false} MoverOk(s: Sys, c: nat, member: bool)
    requires Valid(s) && c < |s.calls|
    ensures CallOk(Take(s, c, member), c)
  {
    assert CallOk(s, c);
    TakeShared(s, c, member);
    if Seen(s.calls[c].stage).Some? {
      SnapshotKept(s, Take(s, c, member), Seen(s.calls[c].stage).value);
    }
  }

  lemma {:induction false} TakeOk(s: Sys, c: nat, member: bool)
    requires Valid(s) && c < |s.calls|
    ensures Valid(Take(s, c, member))
  {
    var t := Take(s, c, member);
    TakeShared(s, c, member);
    forall d | 0 <= d < |t.calls| ensures CallOk(t, d) {
      assert CallOk(s, d);
      if d == c {
        MoverOk(s, c, member);
      } else {
        Frame(s, t, d);
      }
    }
  }

  lemma {:induction false} StepOk(s: Sys, e: Event)
    requires Valid(s)
    ensures Valid(Step(s, e))
  {
    if e.Begin? {
      BeginOk(s, e);
    } else if e.Move? {
      if e.c < |s.calls| {
        TakeOk(s, e.c, e.member);
      }
    } else if IsThread(e) {
      ThreadOk(s, e);
    } else if s.holder.None? {
      LockedOk(s, e);
    }
  }

  ghost function Run(s: Sys, events: seq<Event>): (t: Sys)
    requires Valid(s)
    ensures Valid(t)
    decreases events
  {
    if events == [] then s
    else
      StepOk(s, events[0]);
      Run(Step(s, events[0]), events[1..])
  }

  lemma {:induction false} RunLast(s: Sys, events: seq<Event>, e: Event)
    requires Valid(s)
    ensures Run(s, events + [e]) == Step(Run(s, events), e)
    decreases events
  {
    StepOk(s, (events + [e])[0]);
    if events == [] {
      assert ([] + [e])[1..] == [];
    } else {
      assert (events + [e])[1..] == events[1..] + [e];
      RunLast(Step(s, events[0]), events[1..], e);
    }
  }

  lemma {:induction false} RunSplit(s: Sys, events: seq<Event>, i: nat)
    requires Valid(s) && i <= |events|
    ensures Run(s, events) == Run(Run(s, events[..i]), events[i..])
    decreases i
  {
    if i > 0 {
      StepOk(s, events[0]);
      assert events[1..][..i - 1] == events[..i][1..];
      assert events[1..][i - 1..] == events[i..];
      RunSplit(Step(s, events[0]), events[1..], i - 1);
    } else {
      assert events[..0] == [] && events[0..] == events;
    }
  }

  // ----- runtimes -----

  /** The same but for the recovery capability: no transition lies between the two. */
  predicate SameRun(a: Rt, b: Rt) {
    a.(capability := b.capability) == b
  }

  lemma RuntimeStep(s: Sys, e: Event, r: nat)
    requires Valid(s) && r < |s.runtimes|
    ensures var t := Step(s, e);
            && r < |t.runtimes| && t.runtimes[r].epoch >= s.runtimes[r].epoch
            && (t.runtimes[r].epoch == s.runtimes[r].epoch ==> SameRun(t.runtimes[r], s.runtimes[r]))
  {}

  /** Runtime `r` makes no transition during the events. */
  ghost predicate Unmoved(s: Sys, events: seq<Event>, r: nat)
    requires Valid(s) && r < |s.runtimes|
    decreases events
  {
    events == [] ||
    (StepOk(s, events[0]);
     RuntimeStep(s, events[0], r);
     SameRun(Step(s, events[0]).runtimes[r], s.runtimes[r]) && Unmoved(Step(s, events[0]), events[1..], r))
  }

  /** Epochs only grow, and one that has not grown has seen no transition. */
  lemma {:induction false} EpochTells(s: Sys, events: seq<Event>, r: nat)
    requires Valid(s) && r < |s.runtimes|
    ensures r < |Run(s, events).runtimes| && Run(s, events).runtimes[r].epoch >= s.runtimes[r].epoch
    ensures Run(s, events).runtimes[r].epoch == s.runtimes[r].epoch ==> Unmoved(s, events, r)
    decreases events
  {
    if events != [] {
      StepOk(s, events[0]);
      RuntimeStep(s, events[0], r);
      EpochTells(Step(s, events[0]), events[1..], r);
    }
  }

  lemma {:induction false} UnmovedUpTo(s: Sys, events: seq<Event>, r: nat, j: nat)
    requires Valid(s) && r < |s.runtimes| && j <= |events| && Unmoved(s, events, r)
    ensures r < |Run(s, events[..j]).runtimes| && SameRun(Run(s, events[..j]).runtimes[r], s.runtimes[r])
    decreases j
  {
    if j > 0 {
      StepOk(s, events[0]);
      RuntimeStep(s, events[0], r);
      assert events[..j][1..] == events[1..][..j - 1];
      UnmovedUpTo(Step(s, events[0]), events[1..], r, j - 1);
    }
  }

  // ----- the story of one call -----

  ghost predicate Moves(s: Sys, events: seq<Event>, c: nat, i: nat)
    requires Valid(s)
  {
    i < |events| && events[i].Move? && events[i].c == c && c < |Run(s, events[..i]).calls|
  }

  /** At event `i` the call took its snapshot. */
  ghost predicate Snapped(s: Sys, events: seq<Event>, c: nat, seen: Snapshot, i: nat)
    requires Valid(s)
  {
    && Moves(s, events, c, i)
    && var at := Run(s, events[..i]);
       && at.calls[c].stage == Entered && at.holder.None? && at.entry == Some(seen.entry)
       && at.runtimes[seen.entry.runtime].epoch == seen.epoch
  }

  /** At event `q`, without the lock, it found the runtime of the snapshot to have been executable, the token
      presented to be the one of the snapshot, and the process presenting it to be the one the token was
      issued to, if it was issued to one, and in the cgroup of the snapshot. */
  ghost predicate Checked(s: Sys, events: seq<Event>, c: nat, seen: Snapshot, q: nat)
    requires Valid(s)
  {
    && Moves(s, events, c, q) && events[q].member
    && var call := Run(s, events[..q]).calls[c];
       && call.stage == Checking(seen, true)
       && call.token.Some? && seen.entry.digest == call.token
       && (seen.entry.pid.None? || call.peerPid == seen.entry.pid)
       && call.peerPid.Some? && seen.entry.cgroup.Some?
  }

  /** At event `r` it took the lock again and found the identity in the table to be that of the snapshot. */
  ghost predicate Retaken(s: Sys, events: seq<Event>, c: nat, seen: Snapshot, r: nat)
    requires Valid(s)
  {
    && Moves(s, events, c, r)
    && var at := Run(s, events[..r]);
       && at.calls[c].stage == Returning(seen) && at.holder.None? && at.entry.Some?
       && at.entry.value.digest == seen.entry.digest && at.entry.value.pid == seen.entry.pid
       && at.entry.value.cgroup == seen.entry.cgroup
  }

  /** At event `j`, holding the lock again and the identity unchanged, it found the runtime executable. */
  ghost predicate FoundActive(s: Sys, events: seq<Event>, c: nat, seen: Snapshot, j: nat)
    requires Valid(s)
  {
    && Moves(s, events, c, j)
    && var at := Run(s, events[..j]);
       && at.calls[c].stage == RereadingState(seen) && at.entry.Some?
       && at.runtimes[at.entry.value.runtime].CanExecute()
  }

  /** At event `k` it found the epoch unchanged. */
  ghost predicate FoundEpoch(s: Sys, events: seq<Event>, c: nat, seen: Snapshot, k: nat)
    requires Valid(s)
  {
    && Moves(s, events, c, k)
    && var at := Run(s, events[..k]);
       && at.calls[c].stage == RereadingEpoch(seen) && at.entry.Some?
       && at.runtimes[at.entry.value.runtime].epoch == seen.epoch
  }

  /** At event `m` the policy of the entry answered ALLOW. */
  ghost predicate PolicyAllowed(s: Sys, events: seq<Event>, c: nat, seen: Snapshot, m: nat)
    requires Valid(s)
  {
    && Moves(s, events, c, m)
    && var at := Run(s, events[..m]);
       && at.calls[c].stage == Judging(seen) && at.entry.Some?
       && Judge(at.config, at.entry.value.trace, at.calls[c].action).decision == Allow
  }

  lemma Earlier(s: Sys, events: seq<Event>, e: Event, c: nat, seen: Snapshot, i: nat)
    requires Valid(s) && i < |events|
    ensures Snapped(s, events, c, seen, i) <==> Snapped(s, events + [e], c, seen, i)
    ensures FoundActive(s, events, c, seen, i) <==> FoundActive(s, events + [e], c, seen, i)
    ensures FoundEpoch(s, events, c, seen, i) <==> FoundEpoch(s, events + [e], c, seen, i)
  {
    assert (events + [e])[..i] == events[..i];
  }

  lemma EarlierChecks(s: Sys, events: seq<Event>, e: Event, c: nat, seen: Snapshot, i: nat)
    requires Valid(s) && i < |events|
    ensures Checked(s, events, c, seen, i) <==> Checked(s, events + [e], c, seen, i)
    ensures Retaken(s, events, c, seen, i) <==> Retaken(s, events + [e], c, seen, i)
  {
    assert (events + [e])[..i] == events[..i];
  }

  lemma EarlierAllowed(s: Sys, events: seq<Event>, e: Event, c: nat, seen: Snapshot, m: nat)
    requires Valid(s) && m < |events|
    ensures PolicyAllowed(s, events, c, seen, m) <==> PolicyAllowed(s, events + [e], c, seen, m)
  {
    assert (events + [e])[..m] == events[..m];
  }

  ghost predicate MovedBy(e: Event, c: nat) {
    e.Move? && e.c == c
  }

  /** A call stays as it is unless it moves, and a new one has just entered. */
  lemma StageStep(p: Sys, e: Event, c: nat)
    requires Valid(p) && c < |Step(p, e).calls|
    ensures var stage := Step(p, e).calls[c].stage;
            stage == Entered
            || (c < |p.calls| && stage == if MovedBy(e, c) then Next(p, p.calls[c], e.member) else p.calls[c].stage)
  {}

  // How a call can have got into each stage.

  lemma {:induction false} ToSeen(p: Sys, e: Event, c: nat)
    requires Valid(p) && c < |Step(p, e).calls| && Seen(Step(p, e).calls[c].stage).Some?
    ensures c < |p.calls|
    ensures var seen := Seen(Step(p, e).calls[c].stage).value;
            Seen(p.calls[c].stage) == Some(seen)
            || (MovedBy(e, c) && p.calls[c].stage == Entered && p.holder.None? && p.entry == Some(seen.entry)
                && p.runtimes[seen.entry.runtime].epoch == seen.epoch)
  {
    StageStep(p, e, c);
  }

  lemma {:induction false} ToReturning(p: Sys, e: Event, c: nat)
    requires Valid(p) && c < |Step(p, e).calls| && Step(p, e).calls[c].stage.Returning?
    ensures c < |p.calls|
    ensures var seen := Step(p, e).calls[c].stage.seen; var call := p.calls[c];
            call.stage == Returning(seen)
            || (MovedBy(e, c) && call.stage == Checking(seen, true) && e.member
                && call.token.Some? && seen.entry.digest == call.token
                && (seen.entry.pid.None? || call.peerPid == seen.entry.pid)
                && call.peerPid.Some? && seen.entry.cgroup.Some?)
  {
    StageStep(p, e, c);
  }

  lemma {:induction false} ToRetaken(p: Sys, e: Event, c: nat)
    requires Valid(p) && c < |Step(p, e).calls| && Step(p, e).calls[c].stage.RereadingState?
    ensures c < |p.calls|
    ensures var seen := Step(p, e).calls[c].stage.seen;
            p.calls[c].stage == RereadingState(seen)
            || (MovedBy(e, c) && p.calls[c].stage == Returning(seen) && p.holder.None? && p.entry.Some?
                && p.entry.value.digest == seen.entry.digest && p.entry.value.pid == seen.entry.pid
                && p.entry.value.cgroup == seen.entry.cgroup)
  {
    StageStep(p, e, c);
  }

  lemma {:induction false} ToRereading(p: Sys, e: Event, c: nat)
    requires Valid(p) && c < |Step(p, e).calls| && Step(p, e).calls[c].stage.RereadingEpoch?
    ensures c < |p.calls|
    ensures var seen := Step(p, e).calls[c].stage.seen;
            p.calls[c].stage == RereadingEpoch(seen)
            || (MovedBy(e, c) && p.calls[c].stage == RereadingState(seen) && p.entry.Some?
                && p.runtimes[p.entry.value.runtime].CanExecute())
  {
    StageStep(p, e, c);
  }

  lemma {:induction false} ToJudging(p: Sys, e: Event, c: nat)
    requires Valid(p) && c < |Step(p, e).calls| && Step(p, e).calls[c].stage.Judging?
    ensures c < |p.calls|
    ensures var seen := Step(p, e).calls[c].stage.seen;
            p.calls[c].stage == Judging(seen)
            || (MovedBy(e, c) && p.calls[c].stage == RereadingEpoch(seen) && p.entry.Some?
                && p.runtimes[p.entry.value.runtime].epoch == seen.epoch)
  {
    StageStep(p, e, c);
  }

  lemma {:induction false} ToAllow(p: Sys, e: Event, c: nat)
    requires Valid(p) && c < |Step(p, e).calls| && Step(p, e).calls[c].stage == Decided(Allow)
    ensures c < |p.calls|
    ensures p.calls[c].stage == Decided(Allow)
            || (MovedBy(e, c) && p.calls[c].stage.Judging? && p.entry.Some?
                && Judge(p.config, p.entry.value.trace, p.calls[c].action).decision == Allow)
  {
    StageStep(p, e, c);
  }

  lemma {:induction false} SnapshotHasOrigin(s: Sys, events: seq<Event>, c: nat) returns (i: nat)
    requires Valid(s) && c >= |s.calls| && c < |Run(s, events).calls| && Seen(Run(s, events).calls[c].stage).Some?
    ensures Snapped(s, events, c, Seen(Run(s, events).calls[c].stage).value, i)
    decreases |events|
  {
    var n := |events| - 1;
    var front, e := events[..n], events[n];
    assert events == front + [e];
    RunLast(s, front, e);
    var p := Run(s, front);
    ToSeen(p, e, c);
    if p.calls[c].stage == Entered {
      i := n;
    } else {
      i := SnapshotHasOrigin(s, front, c);
      Earlier(s, front, e, c, Seen(p.calls[c].stage).value, i);
    }
  }

  lemma {:induction false} CheckHasOrigin(s: Sys, events: seq<Event>, c: nat) returns (i: nat, q: nat)
    requires Valid(s) && c >= |s.calls| && c < |Run(s, events).calls| && Run(s, events).calls[c].stage.Returning?
    ensures i < q
    ensures var seen := Run(s, events).calls[c].stage.seen;
            Snapped(s, events, c, seen, i) && Checked(s, events, c, seen, q)
    decreases |events|
  {
    var n := |events| - 1;
    var front, e := events[..n], events[n];
    assert events == front + [e];
    RunLast(s, front, e);
    var p, seen := Run(s, front), Run(s, events).calls[c].stage.seen;
    ToReturning(p, e, c);
    if p.calls[c].stage.Checking? {
      q := n;
      i := SnapshotHasOrigin(s, front, c);
    } else {
      i, q := CheckHasOrigin(s, front, c);
      EarlierChecks(s, front, e, c, seen, q);
    }
    Earlier(s, front, e, c, seen, i);
  }

  /** The events up to the moment the call has the lock again. */
  ghost predicate Back(s: Sys, events: seq<Event>, c: nat, seen: Snapshot, i: nat, q: nat, r: nat)
    requires Valid(s)
  {
    i < q < r && Snapped(s, events, c, seen, i) && Checked(s, events, c, seen, q) && Retaken(s, events, c, seen, r)
  }

  lemma BackEarlier(s: Sys, events: seq<Event>, e: Event, c: nat, seen: Snapshot, i: nat, q: nat, r: nat)
    requires Valid(s) && Back(s, events, c, seen, i, q, r)
    ensures Back(s, events + [e], c, seen, i, q, r)
  {
    Earlier(s, events, e, c, seen, i);
    EarlierChecks(s, events, e, c, seen, q);
    EarlierChecks(s, events, e, c, seen, r);
  }

  lemma {:induction false} ReturnHasOrigin(s: Sys, events: seq<Event>, c: nat) returns (i: nat, q: nat, r: nat)
    requires Valid(s) && c >= |s.calls| && c < |Run(s, events).calls| && Run(s, events).calls[c].stage.RereadingState?
    ensures Back(s, events, c, Run(s, events).calls[c].stage.seen, i, q, r)
    decreases |events|
  {
    var n := |events| - 1;
    var front, e := events[..n], events[n];
    assert events == front + [e];
    RunLast(s, front, e);
    var p, seen := Run(s, front), Run(s, events).calls[c].stage.seen;
    ToRetaken(p, e, c);
    if p.calls[c].stage.Returning? {
      r := n;
      i, q := CheckHasOrigin(s, front, c);
      Earlier(s, front, e, c, seen, i);
      EarlierChecks(s, front, e, c, seen, q);
    } else {
      i, q, r := ReturnHasOrigin(s, front, c);
      BackEarlier(s, front, e, c, seen, i, q, r);
    }
  }

  lemma {:induction false} RereadHasOrigin(s: Sys, events: seq<Event>, c: nat)
    returns (i: nat, q: nat, r: nat, j: nat)
    requires Valid(s) && c >= |s.calls| && c < |Run(s, events).calls| && Run(s, events).calls[c].stage.RereadingEpoch?
    ensures r < j
    ensures var seen := Run(s, events).calls[c].stage.seen;
            Back(s, events, c, seen, i, q, r) && FoundActive(s, events, c, seen, j)
    decreases |events|
  {
    var n := |events| - 1;
    var front, e := events[..n], events[n];
    assert events == front + [e];
    RunLast(s, front, e);
    var p, seen := Run(s, front), Run(s, events).calls[c].stage.seen;
    ToRereading(p, e, c);
    if p.calls[c].stage.RereadingState? {
      j := n;
      i, q, r := ReturnHasOrigin(s, front, c);
    } else {
      i, q, r, j := RereadHasOrigin(s, front, c);
      Earlier(s, front, e, c, seen, j);
    }
    BackEarlier(s, front, e, c, seen, i, q, r);
  }

  lemma {:induction false} JudgingHasOrigin(s: Sys, events: seq<Event>, c: nat)
    returns (i: nat, q: nat, r: nat, j: nat, k: nat)
    requires Valid(s) && c >= |s.calls| && c < |Run(s, events).calls| && Run(s, events).calls[c].stage.Judging?
    ensures r < j < k
    ensures var seen := Run(s, events).calls[c].stage.seen;
            Back(s, events, c, seen, i, q, r) && FoundActive(s, events, c, seen, j)
              && FoundEpoch(s, events, c, seen, k)
    decreases |events|
  {
    var n := |events| - 1;
    var front, e := events[..n], events[n];
    assert events == front + [e];
    RunLast(s, front, e);
    var p, seen := Run(s, front), Run(s, events).calls[c].stage.seen;
    ToJudging(p, e, c);
    if p.calls[c].stage.RereadingEpoch? {
      k := n;
      i, q, r, j := RereadHasOrigin(s, front, c);
    } else {
      i, q, r, j, k := JudgingHasOrigin(s, front, c);
      Earlier(s, front, e, c, seen, k);
    }
    BackEarlier(s, front, e, c, seen, i, q, r);
    Earlier(s, front, e, c, seen, j);
  }

  lemma {:induction false} AllowHasOrigin(s: Sys, events: seq<Event>, c: nat)
    returns (seen: Snapshot, i: nat, q: nat, r: nat, j: nat, k: nat, m: nat)
    requires Valid(s) && c >= |s.calls| && c < |Run(s, events).calls| && Run(s, events).calls[c].stage == Decided(Allow)
    ensures r < j < k < m
    ensures Back(s, events, c, seen, i, q, r) && FoundActive(s, events, c, seen, j) && FoundEpoch(s, events, c, seen, k)
    ensures PolicyAllowed(s, events, c, seen, m)
    decreases |events|
  {
    var n := |events| - 1;
    var front, e := events[..n], events[n];
    assert events == front + [e];
    RunLast(s, front, e);
    var p := Run(s, front);
    ToAllow(p, e, c);
    if p.calls[c].stage.Judging? {
      seen, m := p.calls[c].stage.seen, n;
      i, q, r, j, k := JudgingHasOrigin(s, front, c);
    } else {
      seen, i, q, r, j, k, m := AllowHasOrigin(s, front, c);
      EarlierAllowed(s, front, e, c, seen, m);
    }
    BackEarlier(s, front, e, c, seen, i, q, r);
    Earlier(s, front, e, c, seen, j);
    Earlier(s, front, e, c, seen, k);
  }

  /** While the recheck runs, the entry in the table is the one the snapshot was taken from, and its
      digest is the presented token. */
  lemma RecheckedEntry(s: Sys, c: nat)
    requires Valid(s) && c < |s.calls| && Rechecked(s.calls[c].stage)
    ensures s.entry.Some?
    ensures var seen := Seen(s.calls[c].stage).value.entry; var entry := s.entry.value;
            && entry.serial == seen.serial && entry.runtime == seen.runtime
            && entry.digest == seen.digest == s.calls[c].token && entry.digest.Some?
            && entry.pid == seen.pid && entry.cgroup == seen.cgroup
            && s.marks != [] && s.marks[|s.marks| - 1] == Issued(entry.digest.value)
  {
    assert CallOk(s, c);
  }

  /** The runtime of the snapshot, found executable at `j` and at its old epoch at `k`, made no
      transition from `i` to `k`. */
  lemma {:induction false} UnmovedBetween(s: Sys, events: seq<Event>, c: nat, seen: Snapshot, i: nat, j: nat, k: nat)
    requires Valid(s) && i < j < k
    requires Snapped(s, events, c, seen, i) && FoundActive(s, events, c, seen, j) && FoundEpoch(s, events, c, seen, k)
    ensures seen.entry.runtime < |Run(s, events[..k]).runtimes|
    ensures Run(s, events[..k]).runtimes[seen.entry.runtime].CanExecute()
    ensures seen.entry.runtime < |Run(s, events[..i]).runtimes|
            && Unmoved(Run(s, events[..i]), events[i..k], seen.entry.runtime)
  {
    var r, start, between := seen.entry.runtime, Run(s, events[..i]), events[i..k];
    RecheckedEntry(Run(s, events[..k]), c);
    RecheckedEntry(Run(s, events[..j]), c);
    RunBetween(s, events, i, k);
    RunBetween(s, events, i, j);
    EpochTells(start, between, r);
    UnmovedUpTo(start, between, r, j - i);
    assert between[..j - i] == events[i..j];
    UnmovedUpTo(start, between, r, k - i);
    assert between[..k - i] == between;
  }

  /** The table entry is the one of the snapshot, and the last identity event the issue of the token the
      call presents. */
  predicate Presents(at: Sys, c: nat, seen: Snapshot)
    requires c < |at.calls|
  {
    && at.entry.Some?
    && at.entry.value.serial == seen.entry.serial && at.entry.value.runtime == seen.entry.runtime
    && at.entry.value.digest == at.calls[c].token
    && at.entry.value.pid == seen.entry.pid && at.entry.value.cgroup == seen.entry.cgroup
    && at.calls[c].token.Some? && at.marks != []
    && at.marks[|at.marks| - 1] == Issued(at.calls[c].token.value)
  }

  /** Authorization without ABA. In every interleaving, an ALLOW has a snapshot at event `i`, a check of the
      identity at event `q` in which the membership predicate answered yes, and a revalidation from event `r`
      to event `k`, such that the same agent entry is in the table, its runtime is executable and made no
      transition from `i` to `k`, and the last identity event of the agent, issues and containments alike, is
      the issue of the presented token; entry, token, process and cgroup are still those when the policy
      answers, at event `m`. */
  lemma {:induction false} AllowIsCurrent(s: Sys, events: seq<Event>, c: nat)
    returns (seen: Snapshot, i: nat, q: nat, r: nat, k: nat, m: nat)
    requires Initial(s) && Valid(s)
    requires c < |Run(s, events).calls| && Run(s, events).calls[c].stage == Decided(Allow)
    ensures i < q < r < k < m && Snapped(s, events, c, seen, i) && FoundEpoch(s, events, c, seen, k)
            && PolicyAllowed(s, events, c, seen, m)
    // The check, and the identity found again under the lock.
    ensures events[q] == Move(c, true) && Retaken(s, events, c, seen, r)
    ensures c < |Run(s, events[..q]).calls|
    ensures var call := Run(s, events[..q]).calls[c];
            && call.stage == Checking(seen, true)
            && call.token.Some? && seen.entry.digest == call.token
            && (seen.entry.pid.None? || call.peerPid == seen.entry.pid)
            && call.peerPid.Some? && seen.entry.cgroup.Some?
    ensures seen.entry.runtime < |Run(s, events[..k]).runtimes|
    ensures Run(s, events[..k]).runtimes[seen.entry.runtime].CanExecute()
    ensures Presents(Run(s, events[..k]), c, seen) && Presents(Run(s, events[..m]), c, seen)
    ensures Unmoved(Run(s, events[..i]), events[i..k], seen.entry.runtime)
  {
    var j;
    seen, i, q, r, j, k, m := AllowHasOrigin(s, events, c);
    assert Checked(s, events, c, seen, q);
    RecheckedEntry(Run(s, events[..k]), c);
    RecheckedEntry(Run(s, events[..m]), c);
    UnmovedBetween(s, events, c, seen, i, j, k);
  }

  lemma {:induction false} RunBetween(s: Sys, events: seq<Event>, i: nat, k: nat)
    requires Valid(s) && i <= k <= |events|
    ensures Run(s, events[..k]) == Run(Run(s, events[..i]), events[i..k])
  {
    assert events[..k][..i] == events[..i] && events[..k][i..] == events[i..k];
    RunSplit(s, events[..k], i);
  }

  // ----- containment revokes -----

  /** The event takes effect: nobody holds the service lock and the agent is registered. */
  ghost predicate TakesEffect(s: Sys, events: seq<Event>, x: nat)
    requires Valid(s)
  {
    x < |events| && Run(s, events[..x]).holder.None? && Run(s, events[..x]).entry.Some?
  }

  /** At event `y` the token `token` was issued. */
  ghost predicate IssuedAt(s: Sys, events: seq<Event>, token: Token, y: nat)
    requires Valid(s)
  {
    TakesEffect(s, events, y) && events[y].IssueToken? && Run(s, events[..y]).next == token
  }

  lemma MarksStep(p: Sys, e: Event)
    requires Valid(p)
    ensures Step(p, e).marks == p.marks
            || (p.holder.None? && p.entry.Some? && e.IssueToken? && Step(p, e).marks == p.marks + [Issued(p.next)])
            || (p.holder.None? && p.entry.Some? && e.ContainAgent? && Step(p, e).marks == p.marks + [Revoked])
  {
    if e.Move? && e.c < |p.calls| {
      TakeShared(p, e.c, e.member);
    }
  }

  /** Between a revocation and a moment at which a token is current, that token was issued. */
  lemma {:induction false} IssuedBetween(s: Sys, events: seq<Event>, token: Token, x: nat, m: nat) returns (y: nat)
    requires Valid(s) && x <= m <= |events|
    requires var before := Run(s, events[..x]).marks; before != [] && before[|before| - 1] == Revoked
    requires var after := Run(s, events[..m]).marks; after != [] && after[|after| - 1] == Issued(token)
    ensures x <= y < m && IssuedAt(s, events, token, y)
    decreases m
  {
    var p := Run(s, events[..m - 1]);
    assert events[..m] == events[..m - 1] + [events[m - 1]];
    RunLast(s, events[..m - 1], events[m - 1]);
    MarksStep(p, events[m - 1]);
    if Run(s, events[..m]).marks == p.marks {
      y := IssuedBetween(s, events, token, x, m - 1);
    } else {
      y := m - 1;
    }
  }

  lemma ContainsAgent(p: Sys)
    requires Valid(p) && p.holder.None? && p.entry.Some?
    ensures var t := Step(p, ContainAgent);
            && t.marks == p.marks + [Revoked] && t.entry.Some? && t.entry.value.digest.None?
            && !t.runtimes[t.entry.value.runtime].CanExecute()
  {}

  lemma RevokedAfter(s: Sys, events: seq<Event>, x: nat)
    requires Valid(s) && TakesEffect(s, events, x) && events[x] == ContainAgent
    ensures var marks := Run(s, events[..x + 1]).marks; marks != [] && marks[|marks| - 1] == Revoked
  {
    assert events[..x + 1] == events[..x] + [events[x]];
    RunLast(s, events[..x], events[x]);
    ContainsAgent(Run(s, events[..x]));
  }

  lemma {:induction false} AllowPresents(s: Sys, events: seq<Event>, c: nat) returns (seen: Snapshot, m: nat)
    requires Initial(s) && Valid(s)
    requires c < |Run(s, events).calls| && Run(s, events).calls[c].stage == Decided(Allow)
    ensures PolicyAllowed(s, events, c, seen, m) && Presents(Run(s, events[..m]), c, seen)
  {
    var i, q, r, k;
    seen, i, q, r, k, m := AllowIsCurrent(s, events, c);
  }

  /** A containment revokes every token there is: in every interleaving, whatever call is allowed after it, be
      it one that took its snapshot or passed its check before, presents a token issued after it. */
  lemma {:induction false} ContainmentRevokes(s: Sys, events: seq<Event>, c: nat, x: nat)
    returns (seen: Snapshot, m: nat, y: nat)
    requires Initial(s) && Valid(s)
    requires c < |Run(s, events).calls| && Run(s, events).calls[c].stage == Decided(Allow)
    requires TakesEffect(s, events, x) && events[x] == ContainAgent
    ensures PolicyAllowed(s, events, c, seen, m)
    ensures x < m ==> x < y < m && Run(s, events[..m]).calls[c].token.Some?
                      && IssuedAt(s, events, Run(s, events[..m]).calls[c].token.value, y)
  {
    seen, m := AllowPresents(s, events, c);
    y := 0;
    if x < m {
      RevokedAfter(s, events, x);
      y := IssuedBetween(s, events, Run(s, events[..m]).calls[c].token.value, x + 1, m);
    }
  }

  // ----- a call nobody interferes with -----

  function Steps(c: nat, member: bool, n: nat): (events: seq<Event>)
    ensures |events| == n && forall i :: 0 <= i < n ==> events[i] == Move(c, member)
  {
    if n == 0 then [] else Steps(c, member, n - 1) + [Move(c, member)]
  }

  lemma {:induction false} OneStepMore(s: Sys, c: nat, member: bool, n: nat)
    requires Valid(s)
    ensures Run(s, Steps(c, member, n + 1)) == Step(Run(s, Steps(c, member, n)), Move(c, member))
  {
    RunLast(s, Steps(c, member, n), Move(c, member));
  }

  lemma {:induction false} StepsAppend(s: Sys, c: nat, member: bool, a: nat, b: nat)
    requires Valid(s)
    ensures Run(s, Steps(c, member, a + b)) == Run(Run(s, Steps(c, member, a)), Steps(c, member, b))
  {
    var all := Steps(c, member, a + b);
    assert all[..a] == Steps(c, member, a) && all[a..] == Steps(c, member, b);
    RunSplit(s, all, a);
  }

  lemma {:induction false} DecidedStays(s: Sys, c: nat, member: bool, n: nat)
    requires Valid(s) && c < |s.calls| && s.calls[c].stage.Decided? && s.holder != Some(c)
    ensures Run(s, Steps(c, member, n)) == s
  {
    if n > 0 {
      DecidedStays(s, c, member, n - 1);
      OneStepMore(s, c, member, n - 1);
      assert SetStage(s, c, s.calls[c].stage).calls == s.calls;
    }
  }

  /** The first locked section, */
  lemma {:induction false} TakesSnapshot(s: Sys, c: nat, member: bool)
    requires Valid(s) && s.holder.None? && s.entry.Some? && c < |s.calls| && s.calls[c].stage == Entered
    ensures var rt := s.runtimes[s.entry.value.runtime];
            Run(s, Steps(c, member, 2))
            == SetStage(s, c, Checking(Snapshot(s.entry.value, rt.epoch), rt.state == Active))
  {
    OneStepMore(s, c, member, 0);
    OneStepMore(s, c, member, 1);
    var seen := Snapshot(s.entry.value, s.runtimes[s.entry.value.runtime].epoch);
    assert Run(s, Steps(c, member, 1)) == SetStage(s, c, ReadingState(seen)).(holder := Some(c));
  }

  /** the check and the second locked section up to the policy, */
  lemma {:induction false} PassesCheck(s: Sys, c: nat, member: bool, seen: Snapshot)
    requires Valid(s) && c < |s.calls| && s.holder.None? && s.entry == Some(seen.entry)
    requires s.runtimes[seen.entry.runtime].state == Active && s.runtimes[seen.entry.runtime].epoch == seen.epoch
    requires s.calls[c].stage == Checking(seen, true) && Authenticated(s.calls[c], seen.entry, member)
    ensures Run(s, Steps(c, member, 4)) == SetStage(s, c, Judging(seen)).(holder := Some(c))
  {
    OneStepMore(s, c, member, 0);
    OneStepMore(s, c, member, 1);
    OneStepMore(s, c, member, 2);
    OneStepMore(s, c, member, 3);
    assert Run(s, Steps(c, member, 1)) == SetStage(s, c, Returning(seen));
    assert Run(s, Steps(c, member, 2)) == SetStage(s, c, RereadingState(seen)).(holder := Some(c));
    assert Run(s, Steps(c, member, 3)) == SetStage(s, c, RereadingEpoch(seen)).(holder := Some(c));
  }

  lemma PolicyAnswers(s: Sys, c: nat, member: bool, seen: Snapshot)
    requires Valid(s) && c < |s.calls| && s.holder == Some(c) && s.entry == Some(seen.entry)
    requires s.calls[c].stage == Judging(seen)
    ensures var verdict := Judge(s.config, seen.entry.trace, s.calls[c].action);
            Step(s, Move(c, member))
            == SetStage(s, c, if verdict.decision == Halt then Halting(seen) else Decided(verdict.decision))
               .(holder := None, entry := Some(seen.entry.(trace := verdict.trace)))
  {}

  lemma HaltFollows(u: Sys, c: nat, member: bool, seen: Snapshot)
    requires Valid(u) && c < |u.calls| && u.holder.None? && u.calls[c].stage == Halting(seen)
    ensures seen.entry.runtime < |u.runtimes|
    ensures Step(u, Move(c, member)) == HaltedBy(SetStage(u, c, Decided(Halt)), seen.entry.runtime)
  {
    assert CallOk(u, c);
  }

  /** and the policy. */
  lemma {:induction false} PolicyDecides(s: Sys, c: nat, member: bool, seen: Snapshot)
    requires Valid(s) && c < |s.calls| && s.holder == Some(c) && s.entry == Some(seen.entry)
    requires s.calls[c].stage == Judging(seen)
    ensures var verdict := Judge(s.config, seen.entry.trace, s.calls[c].action); var r := seen.entry.runtime;
            var t := SetStage(s, c, Decided(verdict.decision)).(holder := None,
                                                               entry := Some(seen.entry.(trace := verdict.trace)));
            && r < |s.runtimes|
            && Run(s, Steps(c, member, 2)) == if verdict.decision == Halt then HaltedBy(t, r) else t
  {
    var verdict := Judge(s.config, seen.entry.trace, s.calls[c].action);
    var u := Step(s, Move(c, member));
    OneStepMore(s, c, member, 0);
    PolicyAnswers(s, c, member, seen);
    StepsAppend(s, c, member, 1, 1);
    if verdict.decision == Halt {
      OneStepMore(u, c, member, 0);
      HaltFollows(u, c, member, seen);
      assert SetStage(u, c, Decided(Halt)).calls == s.calls[c := s.calls[c].(stage := Decided(Halt))];
    } else {
      DecidedStays(u, c, member, 1);
    }
  }

  function HaltedBy(s: Sys, r: nat): Sys
    requires r < |s.runtimes|
  {
    var rt := s.runtimes[r];
    s.(runtimes := s.runtimes[r := rt.(state := Halted, epoch := rt.epoch + 1, proof := s.next)], next := s.next + 1)
  }

  lemma {:induction false} FailsCheck(s: Sys, c: nat, member: bool, seen: Snapshot, active: bool)
    requires Valid(s) && c < |s.calls| && s.holder.None? && s.calls[c].stage == Checking(seen, active)
    requires !active || !Authenticated(s.calls[c], seen.entry, member)
    ensures Run(s, Steps(c, member, 6)) == SetStage(s, c, Decided(Deny))
  {
    OneStepMore(s, c, member, 0);
    StepsAppend(s, c, member, 1, 5);
    DecidedStays(Run(s, Steps(c, member, 1)), c, member, 5);
  }

  /** A call nobody interferes with gets all the way: the policy is asked exactly when the token presented is
      the issued one, from the process it was issued to and in the agent's cgroup, and the runtime is
      executable; its answer is the call's, and a HALT halts the runtime. */
  lemma {:induction false} AloneDecides(s: Sys, c: nat, member: bool)
    requires Valid(s) && s.holder.None? && s.entry.Some? && c < |s.calls| && s.calls[c].stage == Entered
    ensures var call, entry := s.calls[c], s.entry.value; var rt := s.runtimes[entry.runtime];
            var asked := call.token.Some? && entry.digest == call.token
              && (entry.pid.None? || call.peerPid == entry.pid)
              && entry.cgroup.Some? && call.peerPid.Some? && member && rt.state == Active;
            var verdict := Judge(s.config, entry.trace, call.action);
            var t := s.(calls := s.calls[c := call.(stage := Decided(if asked then verdict.decision else Deny))],
                        entry := Some(if asked then entry.(trace := verdict.trace) else entry));
            Run(s, Steps(c, member, 8))
            == if asked && verdict.decision == Halt
               then t.(runtimes := s.runtimes[entry.runtime := rt.(state := Halted, epoch := rt.epoch + 1,
                                                                   proof := s.next)], next := s.next + 1)
               else t
  {
    var rt := s.runtimes[s.entry.value.runtime];
    var seen, active := Snapshot(s.entry.value, rt.epoch), rt.state == Active;
    TakesSnapshot(s, c, member);
    StepsAppend(s, c, member, 2, 6);
    var v := Run(s, Steps(c, member, 2));
    if active && Authenticated(v.calls[c], seen.entry, member) {
      AllowedOn(v, c, member, seen);
    } else {
      FailsCheck(v, c, member, seen, active);
    }
  }

  lemma {:induction false} AllowedOn(s: Sys, c: nat, member: bool, seen: Snapshot)
    requires Valid(s) && c < |s.calls| && s.holder.None? && s.entry == Some(seen.entry)
    requires s.runtimes[seen.entry.runtime].state == Active && s.runtimes[seen.entry.runtime].epoch == seen.epoch
    requires s.calls[c].stage == Checking(seen, true) && Authenticated(s.calls[c], seen.entry, member)
    ensures var verdict := Judge(s.config, seen.entry.trace, s.calls[c].action);
            var t := SetStage(s, c, Decided(verdict.decision)).(entry := Some(seen.entry.(trace := verdict.trace)));
            Run(s, Steps(c, member, 6)) == if verdict.decision == Halt then HaltedBy(t, seen.entry.runtime) else t
  {
    var u := SetStage(s, c, Judging(seen)).(holder := Some(c));
    var decided := Decided(Judge(s.config, seen.entry.trace, s.calls[c].action).decision);
    StepsAppend(s, c, member, 4, 2);
    PassesCheck(s, c, member, seen);
    PolicyDecides(u, c, member, seen);
    assert u.calls[c := u.calls[c].(stage := decided)] == s.calls[c := s.calls[c].(stage := decided)];
    assert SetStage(u, c, decided).(holder := None) == SetStage(s, c, decided);
  }
}
