/** The weighted risk aggregator over exact reals. */
module Scoring {

  datatype RuleResult = RuleResult(ruleId: string, score: real, isSuspicious: bool, findings: string)

  type Weights = map<string, real>

  const DEFAULT_WEIGHT: real := 1.0

  function WeightOf(weights: Weights, ruleId: string): real {
    if ruleId in weights then weights[ruleId] else DEFAULT_WEIGHT
  }

  /** Math.max(0.0, Math.min(1.0, x)) */
  function Clamp(x: real): real {
    if x < 0.0 then 0.0 else if x > 1.0 then 1.0 else x
  }

  function Sum(f: RuleResult -> real, rs: seq<RuleResult>): real {
    if rs == [] then 0.0 else Sum(f, rs[..|rs| - 1]) + f(rs[|rs| - 1])
  }

  function Term(weights: Weights, r: RuleResult): real {
    Clamp(r.score) * WeightOf(weights, r.ruleId)
  }

  function ScoreTerm(weights: Weights): RuleResult -> real {
    (r: RuleResult) => Term(weights, r)
  }

  function WeightTerm(weights: Weights): RuleResult -> real {
    (r: RuleResult) => WeightOf(weights, r.ruleId)
  }

  /** The formula that `aggregate` documents, before the final normalization. */
  function WeightedMean(weights: Weights, rs: seq<RuleResult>): real {
    if Sum(WeightTerm(weights), rs) > 0.0
    then Sum(ScoreTerm(weights), rs) / Sum(WeightTerm(weights), rs)
    else 0.0
  }

  /** `aggregate`: one pass with two running totals, then the clamped quotient. */
  method Aggregate(weights: Weights, results: seq<RuleResult>) returns (risk: real)
    ensures risk == Clamp(WeightedMean(weights, results))
    ensures 0.0 <= risk <= 1.0
  {
    if |results| == 0 {
      return 0.0;
    }
    var totalWeightedScore := 0.0;
    var totalWeight := 0.0;
    for i := 0 to |results|
      invariant totalWeightedScore == Sum(ScoreTerm(weights), results[..i])
      invariant totalWeight == Sum(WeightTerm(weights), results[..i])
    {
      var weight := WeightOf(weights, results[i].ruleId);
      var score := Clamp(results[i].score);
      totalWeightedScore := totalWeightedScore + score * weight;
      totalWeight := totalWeight + weight;
      assert results[..i + 1][..i] == results[..i];
    }
    assert results[..|results|] == results;
    var rawScore := if totalWeight > 0.0 then totalWeightedScore / totalWeight else 0.0;
    return Clamp(rawScore);
  }

  // ----- laws of the mean -----

  ghost predicate NonNegative(weights: Weights) {
    forall id :: id in weights ==> weights[id] >= 0.0
  }

  lemma QuotientBetween(n: real, d: real, lo: real, hi: real)
    requires d > 0.0 && lo * d <= n <= hi * d
    ensures lo <= n / d <= hi
  {
  }

  lemma Distribute(x: real, a: real, b: real)
    ensures x * (a + b) == x * a + x * b
  {
  }

  lemma ProductBetween(x: real, w: real, lo: real, hi: real)
    requires w >= 0.0 && lo <= x <= hi
    ensures lo * w <= x * w <= hi * w
  {
  }

  lemma SumStep(f: RuleResult -> real, p: seq<RuleResult>, r: RuleResult)
    ensures Sum(f, p + [r]) == Sum(f, p) + f(r)
  {
  }

  lemma {:induction false} SumSign(f: RuleResult -> real, rs: seq<RuleResult>)
    ensures (forall r :: r in rs ==> f(r) >= 0.0) ==> Sum(f, rs) >= 0.0
    ensures (forall r :: r in rs ==> f(r) <= 0.0) ==> Sum(f, rs) <= 0.0
    decreases |rs|
  {
    if rs != [] {
      SumSign(f, rs[..|rs| - 1]);
      assert rs[|rs| - 1] in rs;
    }
  }

  lemma {:induction false} SumLinear(f: RuleResult -> real, g: RuleResult -> real, h: RuleResult -> real, c: real,
                                     rs: seq<RuleResult>)
    requires forall r :: h(r) == f(r) - c * g(r)
    ensures Sum(h, rs) == Sum(f, rs) - c * Sum(g, rs)
    decreases |rs|
  {
    if rs != [] {
      var p, r := rs[..|rs| - 1], rs[|rs| - 1];
      SumLinear(f, g, h, c, p);
      Distribute(c, Sum(g, p), g(r));
    }
  }

  /** How far a result's weighted score lies above c times its weight. */
  function GapTerm(weights: Weights, c: real): RuleResult -> real {
    (r: RuleResult) => Term(weights, r) - c * WeightOf(weights, r.ruleId)
  }

  lemma GapSign(weights: Weights, c: real, r: RuleResult)
    requires WeightOf(weights, r.ruleId) >= 0.0
    ensures Clamp(r.score) >= c ==> GapTerm(weights, c)(r) >= 0.0
    ensures Clamp(r.score) <= c ==> GapTerm(weights, c)(r) <= 0.0
  {
  }

  lemma QuotientVersus(n: real, d: real, c: real)
    requires d > 0.0
    ensures n - c * d >= 0.0 ==> n / d >= c
    ensures n - c * d <= 0.0 ==> n / d <= c
  {
    var q := n / d;
    assert q * d == n;
    assert (q - c) * d == n - c * d;
  }

  lemma SumVersus(f: RuleResult -> real, g: RuleResult -> real, h: RuleResult -> real, c: real, rs: seq<RuleResult>)
    requires Sum(g, rs) > 0.0 && forall r :: h(r) == f(r) - c * g(r)
    ensures Sum(h, rs) >= 0.0 ==> Sum(f, rs) / Sum(g, rs) >= c
    ensures Sum(h, rs) <= 0.0 ==> Sum(f, rs) / Sum(g, rs) <= c
  {
    var n, d := Sum(f, rs), Sum(g, rs);
    SumLinear(f, g, h, c, rs);
    QuotientVersus(n, d, c);
  }

  /** The gaps tell on which side of c the mean lies. */
  lemma MeanVersus(weights: Weights, rs: seq<RuleResult>, c: real)
    requires Sum(WeightTerm(weights), rs) > 0.0
    ensures Sum(GapTerm(weights, c), rs) >= 0.0 ==> WeightedMean(weights, rs) >= c
    ensures Sum(GapTerm(weights, c), rs) <= 0.0 ==> WeightedMean(weights, rs) <= c
  {
    SumVersus(ScoreTerm(weights), WeightTerm(weights), GapTerm(weights, c), c, rs);
  }

  /** With non-negative weights, not all zero, the mean lies between any bounds of the clamped scores, so
      between the least and the greatest. */
  lemma MeanBetweenScores(weights: Weights, rs: seq<RuleResult>, lo: real, hi: real)
    requires NonNegative(weights) && Sum(WeightTerm(weights), rs) > 0.0
    requires forall r :: r in rs ==> lo <= Clamp(r.score) <= hi
    ensures lo <= WeightedMean(weights, rs) <= hi
  {
    forall r | r in rs ensures GapTerm(weights, lo)(r) >= 0.0 && GapTerm(weights, hi)(r) <= 0.0 {
      GapSign(weights, lo, r);
      GapSign(weights, hi, r);
    }
    SumSign(GapTerm(weights, lo), rs);
    SumSign(GapTerm(weights, hi), rs);
    MeanVersus(weights, rs, lo);
    MeanVersus(weights, rs, hi);
  }

  /** With non-negative weights the final clamp changes nothing. */
  lemma FinalClampIsIdentity(weights: Weights, rs: seq<RuleResult>)
    requires NonNegative(weights)
    ensures Clamp(WeightedMean(weights, rs)) == WeightedMean(weights, rs)
  {
    if Sum(WeightTerm(weights), rs) > 0.0 {
      MeanBetweenScores(weights, rs, 0.0, 1.0);
    }
  }

  // ----- exactly when the mean stays in range -----

  /** n results of one rule, each with score 1. */
  function Ones(id: string, n: nat): (r: seq<RuleResult>)
    ensures |r| == n
  {
    if n == 0 then [] else Ones(id, n - 1) + [RuleResult(id, 1.0, true, "")]
  }

  lemma {:induction false} SumOnes(weights: Weights, id: string, n: nat, first: RuleResult)
    requires WeightOf(weights, id) == 1.0
    ensures Sum(ScoreTerm(weights), [first] + Ones(id, n)) == Term(weights, first) + n as real
    ensures Sum(WeightTerm(weights), [first] + Ones(id, n)) == WeightOf(weights, first.ruleId) + n as real
  {
    if n == 0 {
      assert [first] + Ones(id, 0) == [first] && [first][..0] == [];
    } else {
      var one := RuleResult(id, 1.0, true, "");
      var p := [first] + Ones(id, n - 1);
      SumOnes(weights, id, n - 1, first);
      assert [first] + Ones(id, n) == p + [one];
      SumStep(ScoreTerm(weights), p, one);
      SumStep(WeightTerm(weights), p, one);
    }
  }

  /** Some name is longer than all the given ones. */
  lemma {:induction false} LongerThanAll(ids: set<string>) returns (n: nat)
    ensures forall id :: id in ids ==> |id| < n
    decreases |ids|
  {
    n := 0;
    if ids != {} {
      var id :| id in ids;
      var m := LongerThanAll(ids - {id});
      n := if m > |id| then m else |id| + 1;
    }
  }

  /** Exceeds 1 as soon as the denominator is positive but below n. */
  lemma AboveOne(n: real, w: real)
    requires w < 0.0 < n + w
    ensures n / (n + w) > 1.0
  {
    var q := n / (n + w);
    assert q * (n + w) == n;
    if q <= 1.0 {
      ProductBetween(q, n + w, q, 1.0);
    }
  }

  /** A rule of negative weight that scores 0, beside enough unlisted rules that score 1. */
  lemma NegativeWeightExceedsOne(weights: Weights, id: string) returns (rs: seq<RuleResult>)
    requires id in weights && weights[id] < 0.0
    ensures WeightedMean(weights, rs) > 1.0
  {
    var w := weights[id];
    var len := LongerThanAll(weights.Keys);
    var unlisted := seq(len, _ => 'x');
    assert unlisted !in weights.Keys;
    var n := (-w).Floor + 1;
    var first := RuleResult(id, 0.0, false, "");
    rs := [first] + Ones(unlisted, n);
    SumOnes(weights, unlisted, n, first);
    AboveOne(n as real, w);
  }

  /** Every mean is in [0, 1], so that the final clamp never does anything, exactly when no configured weight is
      negative. */
  lemma MeanInRangeIffNonNegative(weights: Weights)
    ensures NonNegative(weights) <==> forall rs :: Clamp(WeightedMean(weights, rs)) == WeightedMean(weights, rs)
    ensures NonNegative(weights) <==> forall rs :: 0.0 <= WeightedMean(weights, rs) <= 1.0
  {
    if NonNegative(weights) {
      forall rs ensures Clamp(WeightedMean(weights, rs)) == WeightedMean(weights, rs) {
        FinalClampIsIdentity(weights, rs);
      }
      assert forall x :: Clamp(x) == x <==> 0.0 <= x <= 1.0;
    } else {
      var id :| id in weights && weights[id] < 0.0;
      var rs := NegativeWeightExceedsOne(weights, id);
    }
  }

  /** A concrete weight map and results whose mean is 2. */
  lemma NegativeWeightLeavesRange()
    ensures WeightedMean(map["a" := -1.0, "b" := 2.0],
                         [RuleResult("a", 0.0, false, ""), RuleResult("b", 1.0, true, "")]) == 2.0
  {
    var w := map["a" := -1.0, "b" := 2.0];
    var a, b := RuleResult("a", 0.0, false, ""), RuleResult("b", 1.0, true, "");
    assert [a, b][..1] == [a] && [a][..0] == [];
    assert Sum(ScoreTerm(w), [a]) == 0.0 && Sum(WeightTerm(w), [a]) == -1.0;
    assert Sum(ScoreTerm(w), [a, b]) == 2.0 && Sum(WeightTerm(w), [a, b]) == 1.0;
  }

  /** The same rules with scores that are nowhere lower. */
  ghost predicate Raised(a: seq<RuleResult>, b: seq<RuleResult>) {
    |a| == |b| && forall i :: 0 <= i < |a| ==> a[i].ruleId == b[i].ruleId && a[i].score <= b[i].score
  }

  lemma {:induction false} SumsRaised(weights: Weights, a: seq<RuleResult>, b: seq<RuleResult>)
    requires NonNegative(weights) && Raised(a, b)
    ensures Sum(ScoreTerm(weights), a) <= Sum(ScoreTerm(weights), b)
    ensures Sum(WeightTerm(weights), a) == Sum(WeightTerm(weights), b)
    decreases |a|
  {
    if a != [] {
      var x, y := a[|a| - 1], b[|b| - 1];
      SumsRaised(weights, a[..|a| - 1], b[..|b| - 1]);
      TermRaised(weights, x, y);
    }
  }

  lemma TermRaised(weights: Weights, x: RuleResult, y: RuleResult)
    requires NonNegative(weights) && x.ruleId == y.ruleId && x.score <= y.score
    ensures Term(weights, x) <= Term(weights, y)
  {
    assert Clamp(x.score) <= Clamp(y.score);
    ProductBetween(Clamp(x.score), WeightOf(weights, x.ruleId), 0.0, Clamp(y.score));
  }

  lemma QuotientMonotone(n: real, m: real, d: real)
    requires d > 0.0 && n <= m
    ensures n / d <= m / d
  {
  }

  /** Raising scores never lowers the result. */
  lemma MeanIsMonotone(weights: Weights, a: seq<RuleResult>, b: seq<RuleResult>)
    requires NonNegative(weights) && Raised(a, b)
    ensures WeightedMean(weights, a) <= WeightedMean(weights, b)
  {
    SumsRaised(weights, a, b);
    if Sum(WeightTerm(weights), a) > 0.0 {
      QuotientMonotone(Sum(ScoreTerm(weights), a), Sum(ScoreTerm(weights), b), Sum(WeightTerm(weights), a));
    }
  }

  lemma {:induction false} SumRemove(f: RuleResult -> real, rs: seq<RuleResult>, i: nat)
    requires i < |rs|
    ensures Sum(f, rs) == Sum(f, rs[..i] + rs[i + 1..]) + f(rs[i])
    decreases |rs|
  {
    var n := |rs| - 1;
    var rest := rs[..i] + rs[i + 1..];
    if i == n {
      assert rest == rs[..n];
    } else {
      SumRemove(f, rs[..n], i);
      assert rest[..n - 1] == rs[..n][..i] + rs[..n][i + 1..];
      assert rest[n - 1] == rs[n];
    }
  }

  lemma {:induction false} SumPermuted(f: RuleResult -> real, a: seq<RuleResult>, b: seq<RuleResult>)
    requires multiset(a) == multiset(b)
    ensures Sum(f, a) == Sum(f, b)
    decreases |a|
  {
    assert |a| == |multiset(a)| == |multiset(b)| == |b|;
    if a != [] {
      var x := a[|a| - 1];
      var p := a[..|a| - 1];
      assert a == p + [x];
      assert x in multiset(b);
      var i :| 0 <= i < |b| && b[i] == x;
      var rest := b[..i] + b[i + 1..];
      assert b == b[..i] + [x] + b[i + 1..];
      assert multiset(p) == multiset(a) - multiset{x};
      assert multiset(rest) == multiset(b) - multiset{x};
      SumPermuted(f, p, rest);
      SumRemove(f, b, i);
    }
  }

  /** The order in which the rules answered does not matter. */
  lemma MeanIsOrderIndependent(weights: Weights, a: seq<RuleResult>, b: seq<RuleResult>)
    requires multiset(a) == multiset(b)
    ensures WeightedMean(weights, a) == WeightedMean(weights, b)
  {
    SumPermuted(ScoreTerm(weights), a, b);
    SumPermuted(WeightTerm(weights), a, b);
  }

  /** One result: its clamped score, whatever its positive weight. */
  lemma MeanOfOne(weights: Weights, r: RuleResult)
    requires WeightOf(weights, r.ruleId) > 0.0
    ensures WeightedMean(weights, [r]) == Clamp(r.score)
  {
    var w := WeightOf(weights, r.ruleId);
    SumStep(ScoreTerm(weights), [], r);
    SumStep(WeightTerm(weights), [], r);
    assert [] + [r] == [r];
    QuotientBetween(Clamp(r.score) * w, w, Clamp(r.score), Clamp(r.score));
  }

  /** A listed rule of weight 3 that scores 1.5, so 1, beside an unlisted one, so of weight 1, that scores 0.5. */
  lemma SampleMean()
    ensures WeightedMean(map["a" := 3.0], [RuleResult("a", 1.5, true, ""), RuleResult("b", 0.5, false, "")]) == 0.875
  {
    var w := map["a" := 3.0];
    var a, b := RuleResult("a", 1.5, true, ""), RuleResult("b", 0.5, false, "");
    assert [a, b][..1] == [a] && [a][..0] == [];
    assert Sum(ScoreTerm(w), [a]) == 3.0 && Sum(WeightTerm(w), [a]) == 3.0;
    assert Sum(ScoreTerm(w), [a, b]) == 3.5 && Sum(WeightTerm(w), [a, b]) == 4.0;
  }
}
