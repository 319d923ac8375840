/** The two decision paths over the same registered rules: `RuleRegistry.evaluateAll` counts a failed rule
    as score 0, `EngineCoreOrchestrator.orchestrate` leaves it out; both flag when a critical rule fails. */
module Decisions {
  import opened Wrappers
  import opened Rules
  import opened Scoring

  /** How a rule's promise settled; `error` is the message when the reason is an Error. */
  datatype Outcome = Fulfilled(score: real, isSuspicious: bool, reason: string) | Rejected(error: Option<string>)

  type Evaluation = RuleEvaluationResult<string>

  type Outcomes = string -> Outcome

  // ----- specification -----

  predicate CriticalFailure(rules: seq<string>, outcomes: Outcomes, critical: set<string>) {
    exists i :: 0 <= i < |rules| && outcomes(rules[i]).Rejected? && rules[i] in critical
  }

  function ScoreOrZero(o: Outcome): real {
    if o.Fulfilled? then o.score else 0.0
  }

  /** What the caller gets for a rule: its own evaluation, or a harmless one that names the failure. */
  function EvaluationOf(id: string, o: Outcome): Evaluation {
    match o
    case Fulfilled(score, isSuspicious, reason) => RuleEvaluationResult(isSuspicious, score, reason)
    case Rejected(error) =>
      RuleEvaluationResult(false, 0.0, "Rule " + id + " failed: " +
                           (if error.Some? then error.value else "Unknown error"))
  }

  function TotalScore(rules: seq<string>, outcomes: Outcomes): real {
    if rules == [] then 0.0
    else TotalScore(rules[..|rules| - 1], outcomes) + ScoreOrZero(outcomes(rules[|rules| - 1]))
  }

  /** The results of the rules that did not fail, in registration order. */
  function Successful(rules: seq<string>, outcomes: Outcomes): (r: seq<RuleResult>)
    ensures |r| <= |rules|
  {
    if rules == [] then []
    else
      var id := rules[|rules| - 1];
      var o := outcomes(id);
      Successful(rules[..|rules| - 1], outcomes) +
      (if o.Fulfilled? then [RuleResult(id, o.score, o.isSuspicious, o.reason)] else [])
  }

  function Ratio(total: real, n: nat): real {
    if n == 0 then 0.0 else total / n as real
  }

  /** Arithmetic mean with failures as zero. */
  function RegistryScore(rules: seq<string>, outcomes: Outcomes): real {
    Ratio(TotalScore(rules, outcomes), |rules|)
  }

  predicate RegistryFlags(rules: seq<string>, outcomes: Outcomes, threshold: real, critical: set<string>) {
    CriticalFailure(rules, outcomes, critical) || RegistryScore(rules, outcomes) >= threshold
  }

  /** asRiskScore accepts every score that was returned. */
  ghost predicate ScoresInRange(rules: seq<string>, outcomes: Outcomes) {
    forall i :: 0 <= i < |rules| && outcomes(rules[i]).Fulfilled? ==> 0.0 <= outcomes(rules[i]).score <= 1.0
  }

  function EngineScore(rules: seq<string>, outcomes: Outcomes, weights: Weights): real {
    Clamp(WeightedMean(weights, Successful(rules, outcomes)))
  }

  predicate EngineFlags(rules: seq<string>, outcomes: Outcomes, weights: Weights,
                        threshold: real, critical: set<string>) {
    CriticalFailure(rules, outcomes, critical) || EngineScore(rules, outcomes, weights) >= threshold
  }

  /** The findings of the suspicious results, joined with " | ". */
  function Reasons(rs: seq<RuleResult>): string {
    Join(Findings(rs))
  }

  function Findings(rs: seq<RuleResult>): seq<string> {
    if rs == [] then []
    else
      var r := rs[|rs| - 1];
      Findings(rs[..|rs| - 1]) + (if r.isSuspicious then [r.findings] else [])
  }

  function Join(parts: seq<string>): string {
    if |parts| == 0 then "" else if |parts| == 1 then parts[0] else parts[0] + " | " + Join(parts[1..])
  }

  // ----- the registry -----

  class RuleRegistry {
    /** Rule ids in insertion order, as the Map iterates them. */
    var rules: seq<string>
    var threshold: real
    var criticalRuleIds: set<string>

    ghost predicate Valid()
      reads this
    {
      forall i, j :: 0 <= i < j < |rules| ==> rules[i] != rules[j]
    }

    constructor (threshold: real, critical: set<string>)
      ensures Valid() && rules == [] && this.threshold == threshold && criticalRuleIds == critical
    {
      rules := [];
      this.threshold := threshold;
      criticalRuleIds := critical;
    }

    /** False when registration throws: the id is taken, or the rule has no evaluate method. */
    method RegisterRule(ruleId: string, hasEvaluate: bool) returns (ok: bool)
      requires Valid()
      modifies this
      ensures Valid()
      ensures ok <==> ruleId !in old(rules) && hasEvaluate
      ensures rules == if ok then old(rules) + [ruleId] else old(rules)
      ensures threshold == old(threshold) && criticalRuleIds == old(criticalRuleIds)
    {
      if ruleId in rules || !hasEvaluate {
        return false;
      }
      rules := rules + [ruleId];
      return true;
    }

    method ReloadAll(newThreshold: real, critical: set<string>)
      requires Valid()
      modifies this
      ensures Valid() && rules == old(rules) && threshold == newThreshold && criticalRuleIds == critical
    {
      threshold := newThreshold;
      criticalRuleIds := critical;
    }

    /** `evaluateAll` once every rule has settled. */
    method EvaluateAll(outcomes: Outcomes) returns (isSuspicious: bool, aggregateScore: real, results: seq<Evaluation>)
      ensures isSuspicious <==> RegistryFlags(rules, outcomes, threshold, criticalRuleIds)
      ensures aggregateScore ==
              if CriticalFailure(rules, outcomes, criticalRuleIds) then 1.0 else RegistryScore(rules, outcomes)
      ensures |results| == |rules| &&
              forall i :: 0 <= i < |rules| ==> results[i] == EvaluationOf(rules[i], outcomes(rules[i]))
    {
      results := [];
      var criticalRuleFailed := false;
      for i := 0 to |rules|
        invariant |results| == i && forall j :: 0 <= j < i ==> results[j] == EvaluationOf(rules[j], outcomes(rules[j]))
        invariant criticalRuleFailed <==>
                  exists j :: 0 <= j < i && outcomes(rules[j]).Rejected? && rules[j] in criticalRuleIds
      {
        var ruleId, settled := rules[i], outcomes(rules[i]);
        match settled
        case Fulfilled(score, suspicious, reason) =>
          results := results + [RuleEvaluationResult(suspicious, score, reason)];
        case Rejected(error) =>
          if ruleId in criticalRuleIds {
            criticalRuleFailed := true;
          }
          var message := if error.Some? then error.value else "Unknown error";
          results := results + [RuleEvaluationResult(false, 0.0, "Rule " + ruleId + " failed: " + message)];
      }
      if criticalRuleFailed {
        return true, 1.0, results;
      }
      var totalScore := 0.0;
      for i := 0 to |results|
        invariant totalScore == TotalScore(rules[..i], outcomes)
      {
        totalScore := totalScore + results[i].riskScore;
        assert rules[..i + 1][..i] == rules[..i];
      }
      assert rules[..|rules|] == rules;
      aggregateScore := if |results| > 0 then totalScore / |results| as real else 0.0;
      isSuspicious := aggregateScore >= threshold;
    }
  }

  // ----- the orchestrator -----

  datatype Verdict = Threw | Passed | Flagged(score: real, reason: string)

  /** `executeRules`: None when a score is refused by asRiskScore. */
  method ExecuteRules(rules: seq<string>, outcomes: Outcomes)
    returns (successful: Option<seq<RuleResult>>, failures: seq<string>)
    ensures successful.Some? <==> ScoresInRange(rules, outcomes)
    ensures successful.Some? ==> successful.value == Successful(rules, outcomes)
    ensures successful.Some? ==> forall id :: id in failures <==> id in rules && outcomes(id).Rejected?
  {
    var good: seq<RuleResult> := [];
    failures := [];
    for i := 0 to |rules|
      invariant forall j :: 0 <= j < i && outcomes(rules[j]).Fulfilled? ==> 0.0 <= outcomes(rules[j]).score <= 1.0
      invariant good == Successful(rules[..i], outcomes)
      invariant forall id :: id in failures <==> id in rules[..i] && outcomes(id).Rejected?
    {
      var id := rules[i];
      var res := outcomes(id);
      AddRule(rules[..i], id, outcomes);
      assert rules[..i + 1] == rules[..i] + [id];
      if res.Fulfilled? {
        if res.score < 0.0 || res.score > 1.0 {
          return None, failures;
        }
        good := good + [RuleResult(id, res.score, res.isSuspicious, res.reason)];
      } else {
        failures := failures + [id];
      }
    }
    assert rules[..|rules|] == rules;
    return Some(good), failures;
  }

  /** `orchestrate`; Flagged carries what `handleFlagging` hands to the alerting subsystem. */
  method Orchestrate(validated: bool, rules: seq<string>, outcomes: Outcomes, weights: Weights, fraudThreshold: real,
                     critical: set<string>) returns (verdict: Verdict)
    ensures verdict == Threw <==> !validated || !ScoresInRange(rules, outcomes)
    ensures verdict != Threw ==> (verdict.Flagged? <==> EngineFlags(rules, outcomes, weights, fraudThreshold, critical))
    ensures verdict.Flagged? ==>
              && verdict.score ==
                    (if CriticalFailure(rules, outcomes, critical) then 1.0 else EngineScore(rules, outcomes, weights))
              && verdict.reason == Join(SuspiciousReasons(rules, outcomes))
  {
    if !validated {
      return Threw;
    }
    var successful, failures := ExecuteRules(rules, outcomes);
    if successful.None? {
      return Threw;
    }
    FindingsAreReasons(rules, outcomes);
    if exists f :: f in failures && f in critical {
      assert CriticalFailure(rules, outcomes, critical);
      return Flagged(1.0, Reasons(successful.value));
    }
    assert !CriticalFailure(rules, outcomes, critical);
    var aggregatedScore := Aggregate(weights, successful.value);
    if aggregatedScore >= fraudThreshold {
      return Flagged(aggregatedScore, Reasons(successful.value));
    }
    return Passed;
  }

  // ----- what the alert and the results say -----

  /** The reasons of the rules that answered and were suspicious, in registration order. */
  function SuspiciousReasons(rules: seq<string>, outcomes: Outcomes): seq<string> {
    if rules == [] then []
    else
      var o := outcomes(rules[0]);
      (if o.Fulfilled? && o.isSuspicious then [o.reason] else []) + SuspiciousReasons(rules[1..], outcomes)
  }

  lemma {:induction false} AddReason(p: seq<string>, id: string, outcomes: Outcomes)
    ensures SuspiciousReasons(p + [id], outcomes) == SuspiciousReasons(p, outcomes) + SuspiciousReasons([id], outcomes)
  {
    if p == [] {
      assert [] + [id] == [id];
    } else {
      AddReason(p[1..], id, outcomes);
      assert (p + [id])[1..] == p[1..] + [id];
    }
  }

  lemma {:induction false} FindingsAreReasons(rules: seq<string>, outcomes: Outcomes)
    ensures Findings(Successful(rules, outcomes)) == SuspiciousReasons(rules, outcomes)
  {
    if rules != [] {
      var p, id := rules[..|rules| - 1], rules[|rules| - 1];
      FindingsAreReasons(p, outcomes);
      AddReason(p, id, outcomes);
      assert rules == p + [id] && [id][1..] == [];
      AddRule(p, id, outcomes);
      var o := outcomes(id);
      assert SuspiciousReasons([id], outcomes) == if o.Fulfilled? && o.isSuspicious then [o.reason] else [];
      if o.Fulfilled? {
        AddFinding(Successful(p, outcomes), RuleResult(id, o.score, o.isSuspicious, o.reason));
      } else {
        assert Successful(p, outcomes) + [] == Successful(p, outcomes);
        assert SuspiciousReasons(p, outcomes) + [] == SuspiciousReasons(p, outcomes);
      }
    }
  }

  lemma AddFinding(rs: seq<RuleResult>, r: RuleResult)
    ensures Findings(rs + [r]) == Findings(rs) + (if r.isSuspicious then [r.findings] else [])
  {
    assert (rs + [r])[..|rs|] == rs;
  }

  lemma JoinTexts(a: string, b: string, c: string)
    ensures Join([]) == "" && Join([a]) == a
    ensures Join([a, b, c]) == a + " | " + b + " | " + c
  {
    assert [a, b, c][1..] == [b, c] && [b, c][1..] == [c];
    assert Join([c]) == c && Join([b, c]) == b + " | " + c;
    assert a + " | " + (b + " | " + c) == a + " | " + b + " | " + c;
  }

  lemma FailureTexts(score: real, suspicious: bool, reason: string)
    ensures EvaluationOf("r", Fulfilled(score, suspicious, reason)) == RuleEvaluationResult(suspicious, score, reason)
    ensures EvaluationOf("r", Rejected(Some("x"))) == RuleEvaluationResult(false, 0.0, "Rule r failed: x")
    ensures EvaluationOf("r", Rejected(None)) == RuleEvaluationResult(false, 0.0, "Rule r failed: Unknown error")
  {
    assert "Rule " + "r" + " failed: " + "x" == "Rule r failed: x";
    assert "Rule " + "r" + " failed: " + "Unknown error" == "Rule r failed: Unknown error";
  }

  /** Both paths fail closed: as soon as one registered rule that is critical has failed they flag, whatever the other
      rules say and wherever the threshold is; and they differ from the scores alone in no other case. */
  lemma BothFailClosed(rules: seq<string>, outcomes: Outcomes, weights: Weights, threshold: real, critical: set<string>)
    ensures (exists id :: id in rules && id in critical && outcomes(id).Rejected?) ==>
              && RegistryFlags(rules, outcomes, threshold, critical)
              && EngineFlags(rules, outcomes, weights, threshold, critical)
    ensures !(exists id :: id in rules && id in critical && outcomes(id).Rejected?) ==>
              && (RegistryFlags(rules, outcomes, threshold, critical) <==> RegistryScore(rules, outcomes) >= threshold)
              && (EngineFlags(rules, outcomes, weights, threshold, critical) <==>
                    EngineScore(rules, outcomes, weights) >= threshold)
  {
    if id :| id in rules && id in critical && outcomes(id).Rejected? {
      var i :| 0 <= i < |rules| && rules[i] == id;
      assert CriticalFailure(rules, outcomes, critical);
    }
  }

  // ----- the two paths compared -----

  lemma AddRule(p: seq<string>, id: string, outcomes: Outcomes)
    ensures TotalScore(p + [id], outcomes) == TotalScore(p, outcomes) + ScoreOrZero(outcomes(id))
    ensures Successful(p + [id], outcomes) ==
            Successful(p, outcomes) +
            (if outcomes(id).Fulfilled?
             then [RuleResult(id, outcomes(id).score, outcomes(id).isSuspicious, outcomes(id).reason)] else [])
  {
  }

  /** Every registered rule has weight 1. */
  ghost predicate UnitWeights(rules: seq<string>, weights: Weights) {
    forall i :: 0 <= i < |rules| ==> WeightOf(weights, rules[i]) == 1.0
  }

  lemma {:induction false} UnitSums(rules: seq<string>, outcomes: Outcomes, weights: Weights)
    requires UnitWeights(rules, weights) && ScoresInRange(rules, outcomes)
    ensures var ok := Successful(rules, outcomes);
            && Sum(ScoreTerm(weights), ok) == TotalScore(rules, outcomes)
            && Sum(WeightTerm(weights), ok) == |ok| as real
            && 0.0 <= TotalScore(rules, outcomes) <= |ok| as real
    decreases |rules|
  {
    if rules != [] {
      var p, id := rules[..|rules| - 1], rules[|rules| - 1];
      UnitSums(p, outcomes, weights);
      var ok := Successful(p, outcomes);
      if outcomes(id).Fulfilled? {
        var r := RuleResult(id, outcomes(id).score, outcomes(id).isSuspicious, outcomes(id).reason);
        SumStep(ScoreTerm(weights), ok, r);
        SumStep(WeightTerm(weights), ok, r);
        assert Successful(rules, outcomes) == ok + [r];
        assert WeightOf(weights, id) == 1.0;
        assert Term(weights, r) == r.score;
      } else {
        assert Successful(rules, outcomes) == ok;
      }
    }
  }

  /** Under unit weights the engine divides the same total by the number of rules that answered, the
      registry by the number of rules. */
  lemma SameTotalDifferentDivisor(rules: seq<string>, outcomes: Outcomes, weights: Weights)
    requires UnitWeights(rules, weights) && ScoresInRange(rules, outcomes)
    ensures var ok := Successful(rules, outcomes);
            && EngineScore(rules, outcomes, weights) == Ratio(TotalScore(rules, outcomes), |ok|)
            && RegistryScore(rules, outcomes) <= EngineScore(rules, outcomes, weights)
            && (|ok| == |rules| ==> RegistryScore(rules, outcomes) == EngineScore(rules, outcomes, weights))
  {
    var ok := Successful(rules, outcomes);
    UnitSums(rules, outcomes, weights);
    Divisors(TotalScore(rules, outcomes), |ok|, |rules|);
  }

  lemma Divisors(total: real, m: nat, n: nat)
    requires 0.0 <= total <= m as real && m <= n
    ensures 0.0 <= Ratio(total, m) <= 1.0
    ensures Ratio(total, n) <= Ratio(total, m)
  {
    if m > 0 {
      QuotientBetween(total, m as real, 0.0, 1.0);
      Smaller(total, m as real, n as real);
    }
  }

  lemma Smaller(total: real, m: real, n: real)
    requires total >= 0.0 && 0.0 < m <= n
    ensures total / n <= total / m
  {
  }

  /** The total is at least t for each of n results. */
  predicate Reaches(total: real, t: real, n: nat) {
    total >= t * n as real
  }

  lemma RatioReaches(total: real, n: nat, t: real)
    requires n > 0
    ensures Ratio(total, n) >= t <==> Reaches(total, t, n)
  {
    var d := n as real;
    assert total / d * d == total;
    if total / d >= t {
      ProductBetween(t, d, t, total / d);
    } else {
      assert (t - total / d) * d > 0.0;
    }
  }

  /** The engine flags although the registry does not. */
  predicate EngineAlone(rules: seq<string>, outcomes: Outcomes, weights: Weights,
                        threshold: real, critical: set<string>) {
    EngineFlags(rules, outcomes, weights, threshold, critical) && !RegistryFlags(rules, outcomes, threshold, critical)
  }

  /** Whatever the registry marks suspicious the engine flags too, and both flag when a critical rule failed. The
      engine flags alone exactly when no critical rule failed, some rule answered, and the total of the
      answered scores reaches the threshold for every rule that answered but not for every rule; that
      takes a failed rule. */
  lemma EngineFlagsWhatRegistryFlags(rules: seq<string>, outcomes: Outcomes, weights: Weights, threshold: real,
                                     critical: set<string>)
    requires UnitWeights(rules, weights) && ScoresInRange(rules, outcomes)
    ensures RegistryFlags(rules, outcomes, threshold, critical) ==>
              EngineFlags(rules, outcomes, weights, threshold, critical)
    ensures CriticalFailure(rules, outcomes, critical) ==> RegistryFlags(rules, outcomes, threshold, critical)
    ensures var answered := |Successful(rules, outcomes)|;
            var total := TotalScore(rules, outcomes);
            && (EngineAlone(rules, outcomes, weights, threshold, critical) <==>
                  && !CriticalFailure(rules, outcomes, critical)
                  && answered > 0
                  && Reaches(total, threshold, answered) && !Reaches(total, threshold, |rules|))
            && (EngineAlone(rules, outcomes, weights, threshold, critical) ==> answered < |rules|)
  {
    var answered, total := |Successful(rules, outcomes)|, TotalScore(rules, outcomes);
    SameTotalDifferentDivisor(rules, outcomes, weights);
    UnitSums(rules, outcomes, weights);
    if |rules| > 0 {
      RatioReaches(total, |rules|, threshold);
    }
    if answered > 0 {
      RatioReaches(total, answered, threshold);
    } else {
      NoAnswers(rules, outcomes);
    }
  }

  lemma NoAnswers(rules: seq<string>, outcomes: Outcomes)
    requires Successful(rules, outcomes) == []
    ensures TotalScore(rules, outcomes) == 0.0 && RegistryScore(rules, outcomes) == 0.0
  {
    if rules != [] {
      NoAnswers(rules[..|rules| - 1], outcomes);
    }
  }

  /** One failed rule beside one that scores 0.8: with threshold 0.8 only the engine flags. */
  lemma EngineAloneFlags(outcomes: Outcomes)
    requires outcomes("a") == Fulfilled(0.8, true, "") && outcomes("b").Rejected?
    ensures EngineFlags(["a", "b"], outcomes, map[], 0.8, {}) && !RegistryFlags(["a", "b"], outcomes, 0.8, {})
  {
    var rules := ["a", "b"];
    var ok := [RuleResult("a", 0.8, true, "")];
    AddRule([], "a", outcomes);
    AddRule(["a"], "b", outcomes);
    assert [] + ["a"] == ["a"] && ["a"] + ["b"] == rules && [] + ok == ok && ok + [] == ok;
    assert Successful(rules, outcomes) == ok && TotalScore(rules, outcomes) == 0.8;
    assert |ok| as real == 1.0 && |rules| as real == 2.0;
    SameTotalDifferentDivisor(rules, outcomes, map[]);
  }
}
