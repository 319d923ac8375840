/** The projection store and the velocity rule that reads it. */
module ProjectionStores {
  import opened Wrappers
  import opened Rules
  import opened Projection

  type User = string

  /** What becomes of one evaluation of the script: it works, does not run at all, runs but is reported as failed,
      or stops where INCRBY fails, for instance because the balance would not fit. */
  datatype Eval = Works | NeverRuns | Unreported | IncrbyFails

  datatype StoreError = InvalidId | ExecutionFailed

  /** The script has stopped at INCRBY: the commands before it keep their effect. */
  function Stopped(st: UserState, c: Call): UserState {
    st.(history := st.history[c.id := c.now])
  }

  function AfterScript(st: UserState, c: Call, window: int, eval: Eval): UserState {
    if eval.NeverRuns? then st
    else if eval.IncrbyFails? && c.id !in st.history then Stopped(st, c)
    else Apply(st, c, window)
  }

  predicate ScriptFails(st: UserState, id: Id, eval: Eval) {
    eval.NeverRuns? || eval.Unreported? || (eval.IncrbyFails? && id !in st.history)
  }

  /** What the commands leave: a new id adds its amount, unless INCRBY fails, and a known one adds nothing; the id is
      touched now; and only what was touched after windowStart stays, unless the script stopped before. */
  ghost predicate ScriptEffect(before: UserState, after: UserState, id: Id, amount: int, windowStart: int, now: int,
                               incrbyFails: bool)
  {
    var known := id in before.history;
    && after.balance == (if known || incrbyFails then before.balance
                         else Some(amount + (if before.balance.Some? then before.balance.value else 0)))
    && after.history.Keys <= before.history.Keys + {id}
    && forall k :: k in before.history || k == id ==>
         var touched := if k == id then now else before.history[k];
         && (k in after.history <==> (incrbyFails && !known) || touched > windowStart)
         && (k in after.history ==> after.history[k] == touched)
  }

  class ProjectionStore {
    var balances: map<User, int>
    var histories: map<User, map<Id, int>>

    constructor ()
      ensures balances == map[] && histories == map[]
    {
      balances := map[];
      histories := map[];
    }

    function HistoryOf(u: User): map<Id, int>
      reads this
    {
      if u in histories then histories[u] else map[]
    }

    function StateOf(u: User): UserState
      reads this
    {
      UserState(if u in balances then Some(balances[u]) else None, HistoryOf(u))
    }

    /** The Lua script, command by command; an id that fails validation leaves everything as it was. */
    method ProcessTransaction(userId: User, amountDelta: int, transactionId: Id, windowSizeSeconds: int, now: int,
                              eval: Eval) returns (r: Result<int, StoreError>)
      modifies this
      ensures r == Err(InvalidId) <==> userId == "" || transactionId == ""
      ensures forall u :: u != userId || r == Err(InvalidId) || eval.NeverRuns? ==> StateOf(u) == old(StateOf(u))
      ensures r != Err(InvalidId) && !eval.NeverRuns? ==>
                ScriptEffect(old(StateOf(userId)), StateOf(userId), transactionId, amountDelta,
                             now - windowSizeSeconds * 1000, now, eval.IncrbyFails?)
      ensures r != Err(InvalidId) ==>
                && StateOf(userId) ==
                   AfterScript(old(StateOf(userId)), Call(now, transactionId, amountDelta), windowSizeSeconds, eval)
                && (r.Ok? <==> eval.Works? || (eval.IncrbyFails? && transactionId in old(HistoryOf(userId))))
                && (r.Ok? ==> r.value == OrZero(StateOf(userId).balance))
    {
      if userId == "" || transactionId == "" {
        return Err(InvalidId);
      }
      if eval.NeverRuns? {
        return Err(ExecutionFailed);
      }
      var windowStart := now - windowSizeSeconds * 1000;
      // ZADD
      var zset := HistoryOf(userId);
      var isNewTransaction := transactionId !in zset;
      histories := histories[userId := zset[transactionId := now]];
      // GET
      var currentBalance := if userId in balances then balances[userId] else 0;
      if isNewTransaction {
        // INCRBY
        if eval.IncrbyFails? {
          return Err(ExecutionFailed);
        }
        currentBalance := currentBalance + amountDelta;
        balances := balances[userId := currentBalance];
      }
      // ZREMRANGEBYSCORE
      histories := histories[userId := Trim(histories[userId], windowStart)];
      return if eval.Unreported? then Err(ExecutionFailed) else Ok(currentBalance);
    }

    method GetBalance(userId: User) returns (balance: Option<int>)
      ensures balance == if userId == "" then None else Some(OrZero(StateOf(userId).balance))
    {
      if userId == "" {
        return None;
      }
      return Some(if userId in balances then balances[userId] else 0);
    }

    method GetTransactionCount(userId: User, windowSizeSeconds: int, now: int) returns (count: Option<nat>)
      ensures count == if userId == "" then None
                       else Some(CountFrom(StateOf(userId).history, now - windowSizeSeconds * 1000))
    {
      if userId == "" {
        return None;
      }
      return Some(CountFrom(HistoryOf(userId), now - windowSizeSeconds * 1000));
    }
  }

  datatype VelocityReason = Normal | Exceeded(threshold: int, windowSizeSeconds: int, count: nat)

  class VelocityRule {
    const store: ProjectionStore
    var threshold: int
    var windowSizeSeconds: int

    constructor (store: ProjectionStore, threshold: int, windowSizeSeconds: int)
      ensures this.store == store && this.threshold == threshold && this.windowSizeSeconds == windowSizeSeconds
    {
      this.store := store;
      this.threshold := threshold;
      this.windowSizeSeconds := windowSizeSeconds;
    }

    method ReloadConfig(newThreshold: int, newWindow: int)
      modifies this
      ensures threshold == newThreshold && windowSizeSeconds == newWindow
    {
      if newThreshold != threshold || newWindow != windowSizeSeconds {
        threshold := newThreshold;
        windowSizeSeconds := newWindow;
      }
    }

    /** None when the store rejects the user id, which makes the rule fail. */
    method Evaluate(userId: User, now: int) returns (r: Option<RuleEvaluationResult<VelocityReason>>)
      ensures r.None? <==> userId == ""
      ensures r.Some? ==>
                && (r.value.isSuspicious <==> Exceeds(store.StateOf(userId).history, windowSizeSeconds, now, threshold))
                && r.value.riskScore == (if r.value.isSuspicious then 0.8 else 0.0)
                && r.value.reason == if !r.value.isSuspicious then Normal else
                     var count := CountFrom(store.StateOf(userId).history, now - windowSizeSeconds * 1000);
                     Exceeded(threshold, windowSizeSeconds, count)
    {
      var count := store.GetTransactionCount(userId, windowSizeSeconds, now);
      if count.None? {
        return None;
      }
      var isSuspicious := count.value > threshold;
      var reason := if isSuspicious then Exceeded(threshold, windowSizeSeconds, count.value) else Normal;
      return Some(RuleEvaluationResult(isSuspicious, if isSuspicious then 0.8 else 0.0, reason));
    }
  }

  /** The velocity rule's decision on a stored history. */
  predicate Exceeds(history: map<Id, int>, window: int, now: int, threshold: int) {
    CountFrom(history, now - window * 1000) > threshold
  }

  /** The rule flags a user exactly when more distinct transactions than the threshold were touched since
      the window opened, by the full log of script calls; ids on the trimmed edge are not seen. */
  lemma VelocityCountsDistinctTransactions(b: Option<int>, log: seq<Call>, window: int,
                                           ruleWindow: int, now: int, threshold: int)
    requires log != [] && Clocked(log) && window > 0
    requires ruleWindow <= window && log[|log| - 1].now <= now
    ensures Exceeds(Run(UserState(b, map[]), log, window).history, ruleWindow, now, threshold) <==>
            |SinceIds(log, now - ruleWindow * 1000)| > threshold + |TrimmedEdge(log, window, ruleWindow, now)|
  {
    CountMatchesHistory(b, log, window, ruleWindow, now);
  }

  // ----- what single scripts leave after any run -----

  /** After any run, a script that runs to its end extends the run by its call, reported or not; so what holds
      of runs, the conserved balance and the exact window among it, holds of the store. */
  lemma ScriptExtendsRun(b: Option<int>, log: seq<Call>, c: Call, window: int, eval: Eval)
    requires eval.Works? || eval.Unreported?
    ensures AfterScript(Run(UserState(b, map[]), log, window), c, window, eval)
         == Run(UserState(b, map[]), log + [c], window)
  {
    assert (log + [c])[..|log|] == log;
  }

  /** After any run, a working script changes the balance by the amount of a credited call and by nothing else, and
      leaves exactly the ids touched inside the window that ends now. */
  lemma ScriptAfterRun(b: Option<int>, log: seq<Call>, c: Call, window: int, eval: Eval)
    requires eval.Works? || eval.Unreported?
    requires Clocked(log + [c]) && window > 0
    ensures var after := AfterScript(Run(UserState(b, map[]), log, window), c, window, eval);
            && OrZero(after.balance) == OrZero(b) + CreditedSum(log, window)
                                        + (if Credited(log + [c], |log|, window) then c.delta else 0)
            && after.history.Keys == Recent(log + [c], c.now - window * 1000)
  {
    assert (log + [c])[..|log|] == log;
    ScriptExtendsRun(b, log, c, window, eval);
    BalanceConserved(b, log + [c], window);
    WindowMatchesHistory(b, log + [c], window);
  }

  // ----- a script that stops at INCRBY -----

  lemma {:induction false} IdStays(st: UserState, log: seq<Call>, window: int, id: Id, since: int)
    requires id in st.history && since <= st.history[id]
    requires forall k :: 0 <= k < |log| ==> since <= log[k].now < since + window * 1000
    ensures id in Run(st, log, window).history && since <= Run(st, log, window).history[id]
  {
    if log != [] {
      IdStays(st, log[..|log| - 1], window, id, since);
    }
  }

  /** After a script has stopped at INCRBY its id counts as seen although its amount was never added: no call that
      repeats it less than a window later adds it, the message's own retries included, and they report
      success. */
  lemma StoppedIsNeverCredited(st: UserState, c: Call, log: seq<Call>, window: int, retry: Call)
    requires forall k :: 0 <= k < |log| ==> c.now <= log[k].now < c.now + window * 1000
    requires retry.id == c.id
    ensures var before := Run(Stopped(st, c), log, window);
            && Apply(before, retry, window).balance == before.balance
            && !ScriptFails(before, retry.id, IncrbyFails)
  {
    IdStays(Stopped(st, c), log, window, c.id, c.now);
  }
}

/** The retries of one message against the projection. */
module RetriedProjection {
  import opened Retry
  import opened Projection

  lemma {:induction false} SleptMonotone(jitter: nat -> nat, a: nat, b: nat)
    requires a <= b
    ensures Slept(jitter, a) <= Slept(jitter, b)
    decreases b - a
  {
    if a < b {
      SleptMonotone(jitter, a, b - 1);
    }
  }

  /** A message's attempts reach the script at times given by the back-off (those that never reached it
      are not in the log; other calls may lie between). If r retries fit into the window, at most the
      first attempt that took effect is credited, whatever was reported to the caller. */
  lemma RetryCreditsAtMostOnce(log: seq<Call>, at: seq<nat>, attempt: seq<nat>, jitter: nat -> nat, r: nat, t0: int,
                               window: int)
    requires Clocked(log) && |at| == |attempt|
    requires forall k, l :: 0 <= k < l < |at| ==> at[k] < at[l]
    requires forall k :: 0 <= k < |at| ==>
               && at[k] < |log| && attempt[k] <= r
               && log[at[k]].id == log[at[0]].id && log[at[k]].now == t0 + Slept(jitter, attempt[k])
    requires 100 * (Pow2(r) - 1) + 49 * r < 1000 * window
    ensures forall l :: 1 <= l < |at| ==> !Credited(log, at[l], window)
  {
    forall l | 1 <= l < |at| ensures !Credited(log, at[l], window) {
      SleptMonotone(jitter, attempt[l], r);
      SleptBound(jitter, r);
      RepeatNotCredited(log, at[0], at[l], window);
    }
  }
}
