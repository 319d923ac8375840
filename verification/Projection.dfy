/** One user's read model: the Lua script of `processTransaction` on the pair (balance, tx_history),
    and what a run of calls leaves in it. */
module Projection {
  import opened Wrappers

  type Id = string

  /** One script execution: the caller's `Date.now()`, transaction id, amount. */
  datatype Call = Call(now: int, id: Id, delta: int)

  /** `balance` is the Redis counter, None while the key does not exist; `history` is the sorted set. */
  datatype UserState = UserState(balance: Option<int>, history: map<Id, int>)

  const EMPTY: UserState := UserState(None, map[])

  function OrZero(b: Option<int>): int {
    if b.Some? then b.value else 0
  }

  /** ZREMRANGEBYSCORE key -inf upTo. */
  function Trim(h: map<Id, int>, upTo: int): map<Id, int> {
    map k | k in h && h[k] > upTo :: h[k]
  }

  /** ZCOUNT key from +inf. */
  function CountFrom(h: map<Id, int>, from: int): nat {
    |set k | k in h && h[k] >= from|
  }

  function Apply(st: UserState, c: Call, window: int): UserState {
    UserState(
      if c.id in st.history then st.balance else Some(OrZero(st.balance) + c.delta),
      Trim(st.history[c.id := c.now], c.now - window * 1000))
  }

  function Run(st: UserState, log: seq<Call>, window: int): UserState {
    if log == [] then st else Apply(Run(st, log[..|log| - 1], window), log[|log| - 1], window)
  }

  // ----- the full history -----

  function Touched(log: seq<Call>): set<Id> {
    if log == [] then {} else Touched(log[..|log| - 1]) + {log[|log| - 1].id}
  }

  /** Time of the latest call that names the id. */
  function LastTouch(log: seq<Call>, id: Id): int
    requires id in Touched(log)
  {
    if log[|log| - 1].id == id then log[|log| - 1].now else LastTouch(log[..|log| - 1], id)
  }

  ghost predicate Clocked(log: seq<Call>) {
    forall i, j :: 0 <= i <= j < |log| ==> log[i].now <= log[j].now
  }

  lemma ClockedPrefix(log: seq<Call>)
    requires Clocked(log) && log != []
    ensures Clocked(log[..|log| - 1])
    ensures |log| >= 2 ==> log[..|log| - 1][|log| - 2].now <= log[|log| - 1].now
  {
  }

  /** The ids whose latest touch is later than `after`. */
  ghost function Recent(log: seq<Call>, after: int): set<Id> {
    set k | k in Touched(log) && LastTouch(log, k) > after
  }

  // ----- the window index agrees with the history -----

  /** After any run the sorted set holds exactly the ids whose latest touch is inside the window that
      ends at the last call, each with the time of that touch. */
  lemma {:induction false} WindowMatchesHistory(b: Option<int>, log: seq<Call>, window: int)
    requires log != [] && Clocked(log) && window > 0
    ensures var h := Run(UserState(b, map[]), log, window).history;
            && h.Keys == Recent(log, log[|log| - 1].now - window * 1000)
            && forall k :: k in h ==> h[k] == LastTouch(log, k)
    decreases |log|
  {
    var p, c := log[..|log| - 1], log[|log| - 1];
    assert Touched(log) == Touched(p) + {c.id};
    if p == [] {
      assert Touched(p) == {} && Run(UserState(b, map[]), p, window).history == map[];
    } else {
      ClockedPrefix(log);
      WindowMatchesHistory(b, p, window);
    }
    var h := Run(UserState(b, map[]), log, window).history;
    assert forall k :: k in h ==> k in Touched(log) && h[k] == LastTouch(log, k);
    assert h.Keys == Recent(log, c.now - window * 1000);
  }

  /** The ids that a count over `[from, +inf)` misses: touched at the very edge that the last call trimmed. */
  ghost function TrimmedEdge(log: seq<Call>, window: int, queryWindow: int, now: int): set<Id>
    requires log != []
  {
    if queryWindow == window && now == log[|log| - 1].now
    then set k | k in Touched(log) && LastTouch(log, k) == now - window * 1000
    else {}
  }

  ghost function SinceIds(log: seq<Call>, from: int): set<Id> {
    set k | k in Touched(log) && LastTouch(log, k) >= from
  }

  /** `getTransactionCount` with a window no longer than the one the index keeps counts the distinct ids
      of the full log that were touched since, except ids exactly on the edge of an equal window asked
      for in the millisecond of the last call. */
  lemma CountMatchesHistory(b: Option<int>, log: seq<Call>, window: int, queryWindow: int, now: int)
    requires log != [] && Clocked(log) && window > 0
    requires queryWindow <= window && log[|log| - 1].now <= now
    ensures CountFrom(Run(UserState(b, map[]), log, window).history, now - queryWindow * 1000)
         == |SinceIds(log, now - queryWindow * 1000)| - |TrimmedEdge(log, window, queryWindow, now)|
  {
    WindowMatchesHistory(b, log, window);
    var h := Run(UserState(b, map[]), log, window).history;
    var from := now - queryWindow * 1000;
    var kept := set k | k in h && h[k] >= from;
    var edge := TrimmedEdge(log, window, queryWindow, now);
    assert edge <= SinceIds(log, from);
    forall k ensures k in kept <==> k in SinceIds(log, from) - edge {
      assert k in h <==> k in Recent(log, log[|log| - 1].now - window * 1000);
    }
    assert kept == SinceIds(log, from) - edge;
  }

  // ----- conservation of the balance -----

  /** Call i adds its amount: its id was never seen, or was last seen no later than the window that
      ended at the previous call. */
  ghost predicate Credited(log: seq<Call>, i: nat, window: int)
    requires i < |log|
  {
    var before := log[..i];
    log[i].id !in Touched(before) || LastTouch(before, log[i].id) <= log[i - 1].now - window * 1000
  }

  ghost function CreditedSum(log: seq<Call>, window: int): int {
    if log == [] then 0
    else CreditedSum(log[..|log| - 1], window) + (if Credited(log, |log| - 1, window) then log[|log| - 1].delta else 0)
  }

  /** The balance is its initial value plus the amounts of exactly the credited calls. */
  lemma {:induction false} BalanceConserved(b: Option<int>, log: seq<Call>, window: int)
    requires Clocked(log) && window > 0
    ensures OrZero(Run(UserState(b, map[]), log, window).balance) == OrZero(b) + CreditedSum(log, window)
    decreases |log|
  {
    if log != [] {
      var p, c := log[..|log| - 1], log[|log| - 1];
      ClockedPrefix(log);
      BalanceConserved(b, p, window);
      assert log[..|log| - 1] == p;
      if p != [] {
        WindowMatchesHistory(b, p, window);
      }
    }
  }

  lemma {:induction false} LastTouchAtLeast(log: seq<Call>, i: nat)
    requires Clocked(log) && i < |log|
    ensures log[i].id in Touched(log) && LastTouch(log, log[i].id) >= log[i].now
    decreases |log|
  {
    if i < |log| - 1 && log[|log| - 1].id != log[i].id {
      ClockedPrefix(log);
      LastTouchAtLeast(log[..|log| - 1], i);
    }
  }

  /** A call that repeats an id less than a window later is never credited, whatever ran in between. */
  lemma RepeatNotCredited(log: seq<Call>, i: nat, j: nat, window: int)
    requires Clocked(log) && i < j < |log| && log[i].id == log[j].id
    requires log[j].now - log[i].now < window * 1000
    ensures !Credited(log, j, window)
  {
    var before := log[..j];
    assert before[i] == log[i] && Clocked(before);
    LastTouchAtLeast(before, i);
    assert log[j - 1].now <= log[j].now;
  }

  // ----- sums over distinct ids -----

  ghost function Sum(ids: set<Id>, amount: Id -> int): int {
    if ids == {} then 0
    else
      var k :| k in ids;
      amount(k) + Sum(ids - {k}, amount)
  }

  lemma {:induction false} SumRemove(ids: set<Id>, k: Id, amount: Id -> int)
    requires k in ids
    ensures Sum(ids, amount) == amount(k) + Sum(ids - {k}, amount)
    decreases |ids|
  {
    var m :| m in ids && Sum(ids, amount) == amount(m) + Sum(ids - {m}, amount);
    if m != k {
      SumRemove(ids - {m}, k, amount);
      SumRemove(ids - {k}, m, amount);
      assert ids - {m} - {k} == ids - {k} - {m};
    }
  }

  /** Every repeat of an id comes less than a window after its latest touch. */
  ghost predicate RepeatsClose(log: seq<Call>, window: int) {
    forall j :: 0 <= j < |log| && log[j].id in Touched(log[..j])
      ==> log[j].now - LastTouch(log[..j], log[j].id) < window * 1000
  }

  lemma {:induction false} LastTouchIndex(log: seq<Call>, id: Id) returns (i: nat)
    requires id in Touched(log)
    ensures i < |log| && log[i].id == id && log[i].now == LastTouch(log, id)
  {
    if log[|log| - 1].id == id {
      i := |log| - 1;
    } else {
      i := LastTouchIndex(log[..|log| - 1], id);
    }
  }

  lemma RepeatsClosePrefix(log: seq<Call>, window: int)
    requires RepeatsClose(log, window) && log != []
    ensures RepeatsClose(log[..|log| - 1], window)
  {
    var p := log[..|log| - 1];
    forall j | 0 <= j < |p| && p[j].id in Touched(p[..j])
      ensures p[j].now - LastTouch(p[..j], p[j].id) < window * 1000
    {
      assert p[..j] == log[..j];
    }
  }

  /** With close repeats, the credited calls are the first ones of their id. */
  lemma FirstCallsCredited(log: seq<Call>, j: nat, window: int)
    requires Clocked(log) && RepeatsClose(log, window) && j < |log|
    ensures Credited(log, j, window) <==> log[j].id !in Touched(log[..j])
  {
  }

  /** When repeats are close and every id always carries the same amount, each distinct id is counted
      exactly once. */
  lemma {:induction false} EachIdOnce(log: seq<Call>, window: int, amount: Id -> int)
    requires Clocked(log) && window > 0 && RepeatsClose(log, window)
    requires forall i :: 0 <= i < |log| ==> log[i].delta == amount(log[i].id)
    ensures CreditedSum(log, window) == Sum(Touched(log), amount)
    decreases |log|
  {
    if log != [] {
      var p, c := log[..|log| - 1], log[|log| - 1];
      ClockedPrefix(log);
      RepeatsClosePrefix(log, window);
      EachIdOnce(p, window, amount);
      FirstCallsCredited(log, |log| - 1, window);
      assert Touched(log) == Touched(p) + {c.id};
      if c.id !in Touched(p) {
        SumRemove(Touched(log), c.id, amount);
        assert Touched(log) - {c.id} == Touched(p);
      } else {
        assert Touched(log) == Touched(p);
      }
    }
  }

  lemma BalanceIsSumOfDistinct(b: Option<int>, log: seq<Call>, window: int, amount: Id -> int)
    requires Clocked(log) && window > 0 && RepeatsClose(log, window)
    requires forall i :: 0 <= i < |log| ==> log[i].delta == amount(log[i].id)
    ensures OrZero(Run(UserState(b, map[]), log, window).balance) == OrZero(b) + Sum(Touched(log), amount)
  {
    BalanceConserved(b, log, window);
    EachIdOnce(log, window, amount);
  }

  // ----- exactly when a balance is the sum over distinct ids -----

  /** A credited call whose id had been seen: a redelivery after its entry was trimmed. */
  ghost predicate StaleRepeat(log: seq<Call>, j: nat, window: int)
    requires j < |log|
  {
    log[j].id in Touched(log[..j]) && Credited(log, j, window)
  }

  /** The amounts of the stale repeats. */
  ghost function Excess(log: seq<Call>, window: int): int {
    if log == [] then 0
    else Excess(log[..|log| - 1], window) + (if StaleRepeat(log, |log| - 1, window) then log[|log| - 1].delta else 0)
  }

  lemma {:induction false} CreditedIsDistinctPlusExcess(log: seq<Call>, window: int, amount: Id -> int)
    requires forall i :: 0 <= i < |log| ==> log[i].delta == amount(log[i].id)
    ensures CreditedSum(log, window) == Sum(Touched(log), amount) + Excess(log, window)
    decreases |log|
  {
    if log != [] {
      var p, c := log[..|log| - 1], log[|log| - 1];
      CreditedIsDistinctPlusExcess(p, window, amount);
      assert Touched(log) == Touched(p) + {c.id};
      if c.id !in Touched(p) {
        SumRemove(Touched(log), c.id, amount);
        assert Touched(log) - {c.id} == Touched(p);
      } else {
        assert Touched(log) == Touched(p);
      }
    }
  }

  ghost predicate NoStaleRepeat(log: seq<Call>, window: int) {
    forall j :: 0 <= j < |log| ==> !StaleRepeat(log, j, window)
  }

  lemma {:induction false} ExcessIsZeroIff(log: seq<Call>, window: int)
    requires forall i :: 0 <= i < |log| ==> log[i].delta > 0
    ensures Excess(log, window) >= 0
    ensures Excess(log, window) == 0 <==> NoStaleRepeat(log, window)
    decreases |log|
  {
    if log != [] {
      var p := log[..|log| - 1];
      ExcessIsZeroIff(p, window);
      forall j | 0 <= j < |p| ensures StaleRepeat(p, j, window) <==> StaleRepeat(log, j, window) {
        assert p[..j] == log[..j];
      }
      assert log[..|log| - 1] == p;
      if NoStaleRepeat(p, window) && !StaleRepeat(log, |log| - 1, window) {
        assert NoStaleRepeat(log, window);
      }
      if NoStaleRepeat(log, window) {
        assert NoStaleRepeat(p, window);
      }
    }
  }

  /** With positive amounts that depend on the id alone, the balance is never below the sum over the
      distinct ids, and equals it exactly when no id came back after the window had passed it. */
  lemma BalanceExactIffNoStaleRepeat(b: Option<int>, log: seq<Call>, window: int, amount: Id -> int)
    requires Clocked(log) && window > 0
    requires forall i :: 0 <= i < |log| ==> log[i].delta == amount(log[i].id) && log[i].delta > 0
    ensures var balance := OrZero(Run(UserState(b, map[]), log, window).balance);
            var distinct := OrZero(b) + Sum(Touched(log), amount);
            && balance >= distinct
            && (balance == distinct <==> NoStaleRepeat(log, window))
  {
    BalanceConserved(b, log, window);
    CreditedIsDistinctPlusExcess(log, window, amount);
    ExcessIsZeroIff(log, window);
  }

  /** A redelivery one window later, after any other call of the user, is credited again. */
  lemma LateRedeliveryCreditsTwice(window: int, amount: int)
    requires window > 0
    ensures var log := [Call(0, "a", amount), Call(window * 1000, "b", 0), Call(window * 1000, "a", amount)];
            Run(EMPTY, log, window).balance == Some(amount + amount)
  {
    var log := [Call(0, "a", amount), Call(window * 1000, "b", 0), Call(window * 1000, "a", amount)];
    var s1 := Run(EMPTY, log[..1], window);
    var s2 := Run(EMPTY, log[..2], window);
    assert log[..2][..1] == log[..1] && log[..3][..2] == log[..2] && log[..1][..0] == [] && log[..3] == log;
    assert Run(EMPTY, log[..1][..0], window) == EMPTY;
    assert "a" !in EMPTY.history;
    assert s1 == UserState(Some(amount), Trim(map["a" := 0], 0 - window * 1000));
    assert "a" !in s2.history && s2.balance == Some(amount);
  }
}
