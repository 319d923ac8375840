/** Event store and projection side by side: what deliveries, redeliveries, dead letters and crashes leave
    in a user's stream and in the user's read model. */
module Pipeline {
  import opened Wrappers
  import opened Projection

  type User = string

  datatype Delivery = Delivery(user: User, id: Id, amount: int)

  /** A delivery between its append and the end of its handling; `touched` once the script has run for it. */
  datatype Flight = Flight(delivery: Delivery, touched: bool)

  /** `streams` are the transaction ids of the appended events, `logs` the executions of the projection
      script, `lost` the deliveries that ended after the append without any execution: dead-lettered,
      or cut off by a crash. */
  datatype State = State(
    streams: map<User, seq<Id>>,
    logs: map<User, seq<Call>>,
    lost: set<(User, Id)>,
    flights: map<nat, Flight>)

  const INIT: State := State(map[], map[], {}, map[])

  datatype Step =
    | Append(n: nat, delivery: Delivery)
    | Execute(n: nat, now: int, reported: bool)
    | GiveUp(n: nat)

  function StreamOf(s: State, u: User): seq<Id> {
    if u in s.streams then s.streams[u] else []
  }

  function LogOf(s: State, u: User): seq<Call> {
    if u in s.logs then s.logs[u] else []
  }

  /** An attempt that never reached the script changes nothing and has no step. */
  function Apply(s: State, step: Step): Option<State> {
    match step
    case Append(n, d) =>
      if n in s.flights then None
      else Some(s.(streams := s.streams[d.user := StreamOf(s, d.user) + [d.id]],
                   flights := s.flights[n := Flight(d, false)]))
    case Execute(n, now, reported) =>
      if n !in s.flights then None
      else
        var d := s.flights[n].delivery;
        Some(s.(logs := s.logs[d.user := LogOf(s, d.user) + [Call(now, d.id, d.amount)]],
                flights := if reported then s.flights - {n} else s.flights[n := Flight(d, true)]))
    case GiveUp(n) =>
      if n !in s.flights then None
      else
        var f := s.flights[n];
        Some(s.(lost := if f.touched then s.lost else s.lost + {(f.delivery.user, f.delivery.id)},
                flights := s.flights - {n}))
  }

  function Run(s: State, steps: seq<Step>): Option<State>
    decreases |steps|
  {
    if steps == [] then Some(s)
    else
      var t :- Apply(s, steps[0]);
      Run(t, steps[1..])
  }

  // ----- the invariant -----

  /** A delivery of this id to this user is under way and the script has not run for it. */
  ghost predicate Pending(s: State, u: User, id: Id) {
    exists n :: n in s.flights && s.flights[n] == Flight(s.flights[n].delivery, false)
                && s.flights[n].delivery.user == u && s.flights[n].delivery.id == id
  }

  ghost predicate IdOk(s: State, u: User, id: Id) {
    id in StreamOf(s, u) <==> id in Touched(LogOf(s, u)) || (u, id) in s.lost || Pending(s, u, id)
  }

  /** A flight was appended, and is in the log once touched. */
  ghost predicate FlightOk(s: State, n: nat)
    requires n in s.flights
  {
    var d := s.flights[n].delivery;
    d.id in StreamOf(s, d.user) && (s.flights[n].touched ==> d.id in Touched(LogOf(s, d.user)))
  }

  ghost predicate Inv(s: State) {
    && (forall u, id :: IdOk(s, u, id))
    && (forall n :: n in s.flights ==> FlightOk(s, n))
  }

  lemma TouchedAdd(log: seq<Call>, c: Call)
    ensures Touched(log + [c]) == Touched(log) + {c.id}
  {
  }

  lemma AppendKeeps(s: State, n: nat, d: Delivery)
    requires Inv(s) && Apply(s, Append(n, d)).Some?
    ensures Inv(Apply(s, Append(n, d)).value)
  {
    var t := Apply(s, Append(n, d)).value;
    forall u, id ensures IdOk(t, u, id) {
      assert IdOk(s, u, id);
      if Pending(s, u, id) {
        var m :| m in s.flights && !s.flights[m].touched &&
                 s.flights[m].delivery.user == u && s.flights[m].delivery.id == id;
        assert t.flights[m] == s.flights[m];
      }
      if u == d.user && id == d.id {
        assert t.flights[n] == Flight(d, false);
      }
    }
    forall m | m in t.flights ensures FlightOk(t, m) {
      if m != n {
        assert FlightOk(s, m);
      }
    }
  }

  lemma ExecuteKeeps(s: State, n: nat, now: int, reported: bool)
    requires Inv(s) && Apply(s, Execute(n, now, reported)).Some?
    ensures Inv(Apply(s, Execute(n, now, reported)).value)
  {
    var t := Apply(s, Execute(n, now, reported)).value;
    var d := s.flights[n].delivery;
    TouchedAdd(LogOf(s, d.user), Call(now, d.id, d.amount));
    assert FlightOk(s, n);
    forall u, id ensures IdOk(t, u, id) {
      assert IdOk(s, u, id);
      if Pending(s, u, id) && !(u == d.user && id == d.id) {
        var m :| m in s.flights && !s.flights[m].touched &&
                 s.flights[m].delivery.user == u && s.flights[m].delivery.id == id;
        assert m != n && t.flights[m] == s.flights[m];
      }
    }
    forall m | m in t.flights ensures FlightOk(t, m) {
      assert FlightOk(s, m);
    }
  }

  lemma GiveUpKeeps(s: State, n: nat)
    requires Inv(s) && Apply(s, GiveUp(n)).Some?
    ensures Inv(Apply(s, GiveUp(n)).value)
  {
    var t := Apply(s, GiveUp(n)).value;
    var f := s.flights[n];
    assert FlightOk(s, n);
    forall u, id ensures IdOk(t, u, id) {
      assert IdOk(s, u, id);
      if Pending(s, u, id) && !(u == f.delivery.user && id == f.delivery.id) {
        var m :| m in s.flights && !s.flights[m].touched &&
                 s.flights[m].delivery.user == u && s.flights[m].delivery.id == id;
        assert m != n && t.flights[m] == s.flights[m];
      }
      if u == f.delivery.user && id == f.delivery.id && !f.touched {
        assert (u, id) in t.lost;
      }
    }
    forall m | m in t.flights ensures FlightOk(t, m) {
      assert FlightOk(s, m);
    }
  }

  lemma {:induction false} RunKeeps(s: State, steps: seq<Step>)
    requires Inv(s) && Run(s, steps).Some?
    ensures Inv(Run(s, steps).value)
    decreases |steps|
  {
    if steps != [] {
      match steps[0] {
        case Append(n, d) => AppendKeeps(s, n, d);
        case Execute(n, now, reported) => ExecuteKeeps(s, n, now, reported);
        case GiveUp(n) => GiveUpKeeps(s, n);
      }
      RunKeeps(Apply(s, steps[0]).value, steps[1..]);
    }
  }

  // ----- main results -----

  ghost function StreamIds(s: State, u: User): set<Id> {
    set id | id in StreamOf(s, u)
  }

  /** When nothing is under way, a user's stream names exactly the ids that were projected and those lost
      between the append and the projection. */
  lemma StreamIsProjectedPlusLost(steps: seq<Step>, u: User)
    requires Run(INIT, steps).Some? && Run(INIT, steps).value.flights == map[]
    ensures var s := Run(INIT, steps).value;
            && (forall id :: id in StreamIds(s, u) <==> id in Touched(LogOf(s, u)) || (u, id) in s.lost)
            && Touched(LogOf(s, u)) <= StreamIds(s, u)
  {
    RunKeeps(INIT, steps);
    var s := Run(INIT, steps).value;
    forall id ensures id in StreamIds(s, u) <==> id in Touched(LogOf(s, u)) || (u, id) in s.lost {
      assert IdOk(s, u, id);
    }
  }

  lemma {:induction false} LogAmounts(s: State, steps: seq<Step>, u: User, amount: Id -> int)
    requires Run(s, steps).Some?
    requires forall c :: c in LogOf(s, u) ==> c.delta == amount(c.id)
    requires forall n :: n in s.flights && s.flights[n].delivery.user == u ==>
               s.flights[n].delivery.amount == amount(s.flights[n].delivery.id)
    requires forall st :: st in steps && st.Append? && st.delivery.user == u ==>
               st.delivery.amount == amount(st.delivery.id)
    ensures forall c :: c in LogOf(Run(s, steps).value, u) ==> c.delta == amount(c.id)
    decreases |steps|
  {
    if steps != [] {
      assert steps[0] in steps;
      LogAmounts(Apply(s, steps[0]).value, steps[1..], u, amount);
    }
  }

  /** If moreover nothing was lost for the user, the script's clock did not go back, redeliveries stayed
      inside the window and every id always carried the same amount, then the balance is the sum of the
      amounts over the distinct ids of the stream. */
  lemma BalanceMatchesStream(steps: seq<Step>, u: User, window: int, amount: Id -> int)
    requires Run(INIT, steps).Some? && Run(INIT, steps).value.flights == map[]
    requires forall st :: st in steps && st.Append? && st.delivery.user == u ==>
               st.delivery.amount == amount(st.delivery.id)
    requires var s := Run(INIT, steps).value;
             && (forall id :: (u, id) !in s.lost)
             && window > 0 && Clocked(LogOf(s, u)) && RepeatsClose(LogOf(s, u), window)
    ensures var s := Run(INIT, steps).value;
            OrZero(Projection.Run(EMPTY, LogOf(s, u), window).balance) == Sum(StreamIds(s, u), amount)
  {
    var s := Run(INIT, steps).value;
    StreamIsProjectedPlusLost(steps, u);
    LogAmounts(INIT, steps, u, amount);
    assert StreamIds(s, u) == Touched(LogOf(s, u));
    var log := LogOf(s, u);
    assert forall i :: 0 <= i < |log| ==> log[i] in log;
    BalanceIsSumOfDistinct(None, log, window, amount);
  }
}
