/** What a fraud rule answers. */
module Rules {
  /** `RuleEvaluationResult`; R is how a rule words its reason. */
  datatype RuleEvaluationResult<R> = RuleEvaluationResult(isSuspicious: bool, riskScore: real, reason: R)
}
