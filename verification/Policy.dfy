/** Per-action rules and sequence rules over a bounded history.
    Source: src/agent_containment/policy.py. */
module Policy {

  datatype DecisionType = Allow | Deny | Pause | Halt | Contain

  datatype Action = Action(agentId: string, actionId: string, operation: string, risk: int)

  datatype Reason =
    | DeniedOperation
    | RiskTooHigh(effective: int)
    | SequenceMatched(rule: string)
    | WithinPolicy
    | OtherAgent
    | NotExecutable
    | LeaseInvalid
    | LeaseInvalidatedBeforeEffect
    | NotAuthenticated
    | NoLongerAuthorized

  datatype Decision = Decision(actionId: string, decision: DecisionType, reason: Reason)

  /** A forbidden ordered sequence of operation names. */
  datatype SequenceRule = SequenceRule(name: string, sequence: seq<string>, decision: DecisionType, consecutive: bool) {
    predicate Valid() {
      name != "" && sequence != [] && forall i :: 0 <= i < |sequence| ==> sequence[i] != ""
    }
  }

  datatype Config = Config(
    denied: set<string>,
    maxRisk: int,
    rules: seq<SequenceRule>,
    operationRisk: map<string, int>,
    limit: nat)
  {
    predicate Valid() {
      && 0 <= maxRisk <= 100
      && limit >= 1
      && (forall i :: 0 <= i < |rules| ==> rules[i].Valid())
      && (forall op :: op in operationRisk ==> op != "" && 0 <= operationRisk[op] <= 100)
    }

    function EffectiveRisk(action: Action): int {
      var classified := if action.operation in operationRisk then operationRisk[action.operation] else 0;
      if action.risk >= classified then action.risk else classified
    }

    /** The rules that look at the action alone. */
    predicate Admits(action: Action) {
      action.operation !in denied && EffectiveRisk(action) < maxRisk
    }
  }

  // ----- matching -----

  /** The positions `f`, ever greater, spell out `pattern` in `text`. */
  ghost predicate Embedding(f: seq<nat>, pattern: seq<string>, text: seq<string>) {
    && |f| == |pattern|
    && (forall i :: 0 <= i < |f| ==> f[i] < |text| && text[f[i]] == pattern[i])
    && (forall i, j :: 0 <= i < j < |f| ==> f[i] < f[j])
  }

  ghost predicate Embeds(pattern: seq<string>, text: seq<string>) {
    exists f :: Embedding(f, pattern, text)
  }

  ghost predicate Fires(rule: SequenceRule, text: seq<string>) {
    if rule.consecutive then |text| >= |rule.sequence| && text[|text| - |rule.sequence|..] == rule.sequence
    else Embeds(rule.sequence, text)
  }

  /** How far one pass over `text` gets in `pattern`. */
  function Scanned(pattern: seq<string>, text: seq<string>): (k: nat)
    ensures k <= |pattern|
  {
    if text == [] then 0
    else
      var k := Scanned(pattern, text[..|text| - 1]);
      if k < |pattern| && text[|text| - 1] == pattern[k] then k + 1 else k
  }

  /** The pass embeds the part of the pattern it has got through. */
  lemma {:induction false} ScannedEmbeds(pattern: seq<string>, text: seq<string>) returns (f: seq<nat>)
    ensures Embedding(f, pattern[..Scanned(pattern, text)], text)
  {
    if text == [] {
      return [];
    }
    var n := |text| - 1;
    var k := Scanned(pattern, text[..n]);
    f := ScannedEmbeds(pattern, text[..n]);
    if k < |pattern| && text[n] == pattern[k] {
      f := f + [n];
    }
  }

  /** No embedding gets further. */
  lemma {:induction false} ScannedIsGreatest(pattern: seq<string>, text: seq<string>, j: nat, f: seq<nat>)
    requires j <= |pattern| && Embedding(f, pattern[..j], text)
    ensures j <= Scanned(pattern, text)
    decreases |text|
  {
    if j > 0 {
      var n := |text| - 1;
      if f[j - 1] == n {
        ScannedIsGreatest(pattern, text[..n], j - 1, f[..j - 1]);
      } else {
        ScannedIsGreatest(pattern, text[..n], j, f);
      }
    }
  }

  /** The greedy pass is complete: it gets through the whole pattern exactly when some strictly
      increasing choice of positions does. */
  lemma {:induction false} GreedyIsComplete(pattern: seq<string>, text: seq<string>)
    ensures Scanned(pattern, text) == |pattern| <==> Embeds(pattern, text)
  {
    assert pattern[..|pattern|] == pattern;
    if Scanned(pattern, text) == |pattern| {
      var f := ScannedEmbeds(pattern, text);
    }
    if Embeds(pattern, text) {
      var f :| Embedding(f, pattern, text);
      ScannedIsGreatest(pattern, text, |pattern|, f);
    }
  }

  lemma {:induction false} ScannedGrows(pattern: seq<string>, text: seq<string>, more: seq<string>)
    ensures Scanned(pattern, text) <= Scanned(pattern, text + more)
    decreases |more|
  {
    if more == [] {
      assert text + more == text;
    } else {
      assert (text + more)[..|text + more| - 1] == text + more[..|more| - 1];
      ScannedGrows(pattern, text, more[..|more| - 1]);
    }
  }

  /** One pass, stopping as soon as the pattern is used up. */
  method MatchesSubsequence(pattern: seq<string>, text: seq<string>) returns (matched: bool)
    requires pattern != []
    ensures matched <==> Embeds(pattern, text)
  {
    var next := 0;
    for i := 0 to |text|
      invariant next == Scanned(pattern, text[..i]) < |pattern|
    {
      assert text[..i + 1][..i] == text[..i];
      if text[i] == pattern[next] {
        next := next + 1;
        if next == |pattern| {
          assert text == text[..i + 1] + text[i + 1..];
          ScannedGrows(pattern, text[..i + 1], text[i + 1..]);
          GreedyIsComplete(pattern, text);
          return true;
        }
      }
    }
    assert text[..|text|] == text;
    GreedyIsComplete(pattern, text);
    return false;
  }

  // ----- the bounded history -----

  function Recent<T>(trace: seq<T>, limit: nat): (h: seq<T>)
    ensures |h| <= limit && |h| <= |trace|
  {
    if |trace| <= limit then trace else trace[|trace| - limit..]
  }

  /** No rule fires on any stretch of at most `limit + 1` operations. */
  ghost predicate WindowsSafe(config: Config, trace: seq<string>) {
    forall k, i, j :: 0 <= k < |config.rules| && 0 <= i <= j <= |trace| && j - i <= config.limit + 1 ==>
      !Fires(config.rules[k], trace[i..j])
  }

  /** The first rule that fires, or the number of rules. */
  ghost function FirstFiring(rules: seq<SequenceRule>, text: seq<string>): (k: nat)
    ensures k <= |rules|
    ensures k < |rules| ==> Fires(rules[k], text)
    ensures forall m :: 0 <= m < k ==> !Fires(rules[m], text)
  {
    if rules == [] || Fires(rules[0], text) then 0 else 1 + FirstFiring(rules[1..], text)
  }

  ghost predicate SomeRuleFires(config: Config, text: seq<string>) {
    FirstFiring(config.rules, text) < |config.rules|
  }

  /** What one evaluation answers, and the trace it leaves. */
  datatype Verdict = Verdict(decision: DecisionType, trace: seq<string>)

  /** The first rule that fires decides; if none does the operation is committed. */
  ghost function Judge(config: Config, trace: seq<string>, action: Action): Verdict {
    var k := FirstFiring(config.rules, Recent(trace, config.limit) + [action.operation]);
    if !config.Admits(action) then Verdict(Halt, trace)
    else if k < |config.rules| then Verdict(config.rules[k].decision, trace)
    else Verdict(Allow, trace + [action.operation])
  }

  /** A consecutive rule fires exactly on the texts that end in its sequence, so it asks for more than one
      that lets other operations come between. */
  lemma {:induction false} ConsecutiveIsStricter(rule: SequenceRule, text: seq<string>)
    requires rule.consecutive
    ensures Fires(rule, text) <==> exists before: seq<string> :: text == before + rule.sequence
    ensures Fires(rule, text) ==> Fires(rule.(consecutive := false), text)
  {
    if Fires(rule, text) {
      var n := |text| - |rule.sequence|;
      assert text == text[..n] + rule.sequence;
      assert Embedding(seq(|rule.sequence|, i requires i >= 0 => n + i), rule.sequence, text);
    }
    if before: seq<string> :| text == before + rule.sequence {
      assert text[|text| - |rule.sequence|..] == rule.sequence;
    }
  }

  lemma {:induction false} EmbedsInLonger(pattern: seq<string>, text: seq<string>, i: nat)
    requires i <= |text| && Embeds(pattern, text[i..])
    ensures Embeds(pattern, text)
  {
    var f :| Embedding(f, pattern, text[i..]);
    var g := seq(|f|, m requires 0 <= m < |f| => f[m] + i);
    assert Embedding(g, pattern, text);
  }

  /** A rule that fires on a suffix fires on the whole. */
  lemma {:induction false} FiresOnLonger(rule: SequenceRule, text: seq<string>, i: nat)
    requires i <= |text| && Fires(rule, text[i..])
    ensures Fires(rule, text)
  {
    if rule.consecutive {
      var n := |rule.sequence|;
      assert text[i..][|text| - i - n..] == text[|text| - n..];
    } else {
      EmbedsInLonger(rule.sequence, text, i);
    }
  }

  lemma {:induction false} WindowInCandidate(rule: SequenceRule, extended: seq<string>, candidate: seq<string>,
                                             from: nat, i: nat)
    requires from <= i <= |extended| && extended[from..] == candidate && Fires(rule, extended[i..|extended|])
    ensures Fires(rule, candidate)
  {
    assert extended[i..|extended|] == candidate[i - from..];
    FiresOnLonger(rule, candidate, i - from);
  }

  /** Looking at the bounded history is exactly enough: after the operation every stretch of at most
      `limit + 1` operations is still safe, precisely when no rule fires on the history and it. */
  lemma {:induction false} HistorySuffices(config: Config, trace: seq<string>, operation: string)
    requires WindowsSafe(config, trace)
    ensures WindowsSafe(config, trace + [operation])
       <==> !SomeRuleFires(config, Recent(trace, config.limit) + [operation])
  {
    var extended := trace + [operation];
    var candidate := Recent(trace, config.limit) + [operation];
    var from := |extended| - |candidate|;
    assert extended[from..] == candidate;
    if SomeRuleFires(config, candidate) {
      assert extended[from..|extended|] == candidate;
    } else {
      forall k, i, j | 0 <= k < |config.rules| && 0 <= i <= j <= |extended| && j - i <= config.limit + 1
        ensures !Fires(config.rules[k], extended[i..j])
      {
        if j <= |trace| {
          assert extended[i..j] == trace[i..j];
        } else if Fires(config.rules[k], extended[i..j]) {
          WindowInCandidate(config.rules[k], extended, candidate, from, i);
        }
      }
    }
  }

  lemma RecentExtended(trace: seq<string>, limit: nat, operation: string)
    requires limit >= 1
    ensures Recent(trace + [operation], limit) == Recent(Recent(trace, limit) + [operation], limit)
  {}

  /** A text that embeds a pattern has each of its entries. */
  lemma {:induction false} NeedsEvery(pattern: seq<string>, text: seq<string>, at: nat)
    requires at < |pattern| && Embeds(pattern, text)
    ensures pattern[at] in text
  {
    var f :| Embedding(f, pattern, text);
    assert text[f[at]] == pattern[at];
  }

  /** The bound is exact: whatever the limit, a trace of `limit + 2` operations can be committed in
      full and still contain a forbidden sequence. */
  lemma {:induction false} WindowBoundIsTight(limit: nat) returns (config: Config, trace: seq<string>)
    requires limit >= 1
    ensures config.Valid() && config.limit == limit && |trace| == limit + 2
    ensures forall n :: 0 <= n <= |trace| ==> WindowsSafe(config, trace[..n])
    ensures |config.rules| == 1 && Fires(config.rules[0], trace)
  {
    var rule := SequenceRule("exfiltration", ["read", "send"], Halt, false);
    config := Config({}, 80, [rule], map[], limit);
    trace := ["read"] + seq(limit, _ => "wait") + ["send"];
    assert Embedding([0, limit + 1], ["read", "send"], trace);
    forall n, i, j | 0 <= n <= |trace| && 0 <= i <= j <= n && j - i <= limit + 1
      ensures !Fires(rule, trace[..n][i..j])
    {
      assert trace[..n][i..j] == trace[i..j];
      if Embeds(rule.sequence, trace[i..j]) {
        NeedsEvery(rule.sequence, trace[i..j], if i == 0 then 1 else 0);
      }
    }
  }

  // ----- the engine -----

  class PolicyEngine {
    const config: Config
    var history: seq<string>
    /** Every operation committed since the history was last cleared. */
    ghost var trace: seq<string>

    ghost predicate Valid()
      reads this
    {
      config.Valid() && history == Recent(trace, config.limit) && WindowsSafe(config, trace)
    }

    constructor (config: Config)
      requires config.Valid()
      ensures Valid() && this.config == config && trace == []
    {
      this.config := config;
      history := [];
      trace := [];
      new;
      forall k, i, j | 0 <= k < |config.rules| && 0 <= i <= j <= |trace| && j - i <= config.limit + 1
        ensures !Fires(config.rules[k], trace[i..j])
      {
        if !config.rules[k].consecutive {
          GreedyIsComplete(config.rules[k].sequence, []);
        }
      }
    }

    method Matches(rule: SequenceRule, candidate: seq<string>) returns (matched: bool)
      requires rule.Valid()
      ensures matched <==> Fires(rule, candidate)
    {
      if rule.consecutive {
        matched := |candidate| >= |rule.sequence| && candidate[|candidate| - |rule.sequence|..] == rule.sequence;
      } else {
        matched := MatchesSubsequence(rule.sequence, candidate);
      }
    }

    /** The first rule that fires on the history and the operation. */
    method FirstMatch(operation: string) returns (at: nat)
      requires config.Valid()
      ensures at == FirstFiring(config.rules, history + [operation])
    {
      var candidate := history + [operation];
      at := 0;
      while at < |config.rules|
        invariant 0 <= at <= |config.rules|
        invariant forall k :: 0 <= k < at ==> !Fires(config.rules[k], candidate)
      {
        var matched := Matches(config.rules[at], candidate);
        if matched {
          return;
        }
        at := at + 1;
      }
    }

    /** The caller's figure can raise the controller's own classification of an operation and never lower
        it; an operation without one counts as 0. A denied operation, or one at or above the threshold by
        either figure, is answered HALT and leaves no trace. Any other action is committed exactly when the
        whole trace since the last reset stays safe, and otherwise the first rule that fires decides. */
    method Evaluate(action: Action) returns (d: Decision)
      requires Valid()
      modifies `history, `trace
      ensures Valid() && d.actionId == action.actionId
      ensures Verdict(d.decision, trace) == Judge(config, old(trace), action)
      ensures var op, extended := action.operation, old(trace) + [action.operation];
              var classified := if op in config.operationRisk then config.operationRisk[op] else 0;
              if op in config.denied then
                d.decision == Halt && d.reason == DeniedOperation && trace == old(trace) && history == old(history)
              else if action.risk >= config.maxRisk || classified >= config.maxRisk then
                && d.decision == Halt && trace == old(trace) && history == old(history)
                && d.reason == RiskTooHigh(if action.risk < classified then classified else action.risk)
              else if WindowsSafe(config, extended) then
                d.decision == Allow && d.reason == WithinPolicy && trace == extended
              else
                && trace == old(trace) && history == old(history)
                && exists k :: 0 <= k < |config.rules| && Fires(config.rules[k], old(history) + [op])
                     && (forall m :: 0 <= m < k ==> !Fires(config.rules[m], old(history) + [op]))
                     && d.decision == config.rules[k].decision && d.reason == SequenceMatched(config.rules[k].name)
      // A rule may be configured to answer ALLOW; only then is an allowed operation not committed.
      ensures (forall k :: 0 <= k < |config.rules| ==> config.rules[k].decision != Allow) ==>
                (d.decision == Allow <==> trace == old(trace) + [action.operation])
    {
      if action.operation in config.denied {
        return Decision(action.actionId, Halt, DeniedOperation);
      }
      var effective := config.EffectiveRisk(action);
      if effective >= config.maxRisk {
        return Decision(action.actionId, Halt, RiskTooHigh(effective));
      }
      HistorySuffices(config, trace, action.operation);
      if config.rules != [] {
        var at := FirstMatch(action.operation);
        if at < |config.rules| {
          return Decision(action.actionId, config.rules[at].decision, SequenceMatched(config.rules[at].name));
        }
      }
      RecentExtended(trace, config.limit, action.operation);
      history := Recent(history + [action.operation], config.limit);
      trace := trace + [action.operation];
      return Decision(action.actionId, Allow, WithinPolicy);
    }

    method ResetHistory()
      requires Valid()
      modifies `history, `trace
      ensures Valid() && trace == []
    {
      history := [];
      trace := [];
      forall k, i, j | 0 <= k < |config.rules| && 0 <= i <= j <= |trace| && j - i <= config.limit + 1
        ensures !Fires(config.rules[k], trace[i..j])
      {
        if !config.rules[k].consecutive {
          GreedyIsComplete(config.rules[k].sequence, []);
        }
      }
    }
  }
}
