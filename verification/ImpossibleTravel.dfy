/** The geospatial rule: a per-user register that keeps the newest event, and a speed test of each
    arriving event against it. */
module ImpossibleTravel {
  import opened Wrappers
  import opened Rules

  datatype Location = Location(latitude: real, longitude: real)

  /** Timestamp in nanoseconds and place of one transaction; no place when a coordinate is not a finite
      number (JSON keeps such a number as null). */
  datatype Event = Event(ts: int, place: Option<Location>)

  /** The Redis hash of one user: `ts` as the script compares it, `data` with the exact timestamp. */
  datatype Stored = Stored(ts: int, data: Event)

  type Distance = (Location, Location) -> real

  /** `tonumber`: nanosecond timestamps do not fit a double exactly. */
  type Rounding = int -> int

  ghost predicate Metric(dist: Distance) {
    && (forall a :: dist(a, a) == 0.0)
    && (forall a, b :: dist(a, b) >= 0.0 && dist(a, b) == dist(b, a))
    && (forall a, b, c :: dist(a, c) <= dist(a, b) + dist(b, c))
  }

  ghost predicate Monotone(rnd: Rounding) {
    forall x, y :: x <= y ==> rnd(x) <= rnd(y)
  }

  ghost predicate KeepsPositive(rnd: Rounding) {
    forall x :: x > 0 ==> rnd(x) > 0
  }

  const SPEED_LIMIT_KMH: real := 900.0
  const NS_PER_HOUR: real := 3600000000000.0

  function ExistingTs(reg: Option<Stored>): int {
    if reg.Some? then reg.value.ts else 0
  }

  /** The Lua script's effect on the register; it answers with the data stored before. */
  function Update(rnd: Rounding, reg: Option<Stored>, e: Event): Option<Stored> {
    if rnd(e.ts) > ExistingTs(reg) then Some(Stored(rnd(e.ts), e)) else reg
  }

  function Hours(ns: int): real {
    ns as real / NS_PER_HOUR
  }

  /** The evaluation throws: there is a previous event, and one of the two has no place. */
  predicate Fails(last: Option<Stored>, e: Event) {
    last.Some? && (last.value.data.place.None? || e.place.None?)
  }

  /** The speed test against the answered event. */
  predicate Suspicious(dist: Distance, last: Option<Stored>, e: Event) {
    last.Some? && !Fails(last, e) &&
    var from := last.value.data;
    e.ts - from.ts > 0 && dist(from.place.value, e.place.value) / Hours(e.ts - from.ts) > SPEED_LIMIT_KMH
  }

  datatype Reason = WarmUp | OutOfOrder | WithinBounds | TooFast(speed: real, distance: real)

  /** The branch that decides. */
  predicate ReasonOk(dist: Distance, last: Option<Stored>, e: Event, reason: Reason) {
    && (reason.WarmUp? <==> last.None?)
    && (reason.OutOfOrder? <==> last.Some? && e.ts <= last.value.data.ts)
    && (reason.TooFast? <==> Suspicious(dist, last, e))
    && (reason.TooFast? && last.Some? && !Fails(last, e) && e.ts > last.value.data.ts ==>
          && reason.distance == dist(last.value.data.place.value, e.place.value)
          && reason.speed == reason.distance / Hours(e.ts - last.value.data.ts))
  }

  class GeospatialRule {
    const dist: Distance
    const rnd: Rounding
    var registers: map<string, Stored>

    constructor (dist: Distance, rnd: Rounding)
      ensures this.dist == dist && this.rnd == rnd && registers == map[]
    {
      this.dist := dist;
      this.rnd := rnd;
      registers := map[];
    }

    function RegisterOf(u: string): Option<Stored>
      reads this
    {
      if u in registers then Some(registers[u]) else None
    }

    /** `evaluate`: the atomic script, then the decision, None when it throws. Only the user's own register
        can change, and it changes even when the evaluation throws. */
    method Evaluate(userId: string, e: Event) returns (r: Option<RuleEvaluationResult<Reason>>)
      modifies this
      ensures RegisterOf(userId) == Update(rnd, old(RegisterOf(userId)), e)
      ensures forall u :: u != userId ==> RegisterOf(u) == old(RegisterOf(u))
      ensures r.None? <==> Fails(old(RegisterOf(userId)), e)
      ensures r.Some? ==>
                && (r.value.isSuspicious <==> Suspicious(dist, old(RegisterOf(userId)), e))
                && r.value.riskScore == (if r.value.isSuspicious then 0.9 else 0.0)
                && ReasonOk(dist, old(RegisterOf(userId)), e, r.value.reason)
    {
      var lastState := RegisterOf(userId);
      if rnd(e.ts) > ExistingTs(lastState) {
        registers := registers[userId := Stored(rnd(e.ts), e)];
      }
      if lastState.None? {
        return Some(RuleEvaluationResult(false, 0.0, WarmUp));
      }
      var last := lastState.value.data;
      if last.place.None? || e.place.None? {
        return None;
      }
      var distanceKm := dist(last.place.value, e.place.value);
      var timeDiffNs := e.ts - last.ts;
      if timeDiffNs <= 0 {
        return Some(RuleEvaluationResult(false, 0.0, OutOfOrder));
      }
      var speed := distanceKm / Hours(timeDiffNs);
      var isSuspicious := speed > SPEED_LIMIT_KMH;
      var reason := if isSuspicious then TooFast(speed, distanceKm) else WithinBounds;
      return Some(RuleEvaluationResult(isSuspicious, if isSuspicious then 0.9 else 0.0, reason));
    }
  }

  // ----- runs: the events of one user in arrival order -----

  function Run(rnd: Rounding, events: seq<Event>): Option<Stored> {
    if events == [] then None else Update(rnd, Run(rnd, events[..|events| - 1]), events[|events| - 1])
  }

  /** The register that event i is compared with. */
  function Before(rnd: Rounding, events: seq<Event>, i: nat): Option<Stored>
    requires i <= |events|
  {
    Run(rnd, events[..i])
  }

  predicate Advances(rnd: Rounding, events: seq<Event>, i: nat)
    requires i < |events|
  {
    rnd(events[i].ts) > ExistingTs(Before(rnd, events, i))
  }

  predicate Flagged(dist: Distance, rnd: Rounding, events: seq<Event>, i: nat)
    requires i < |events|
  {
    Suspicious(dist, Before(rnd, events, i), events[i])
  }

  predicate FailedAt(rnd: Rounding, events: seq<Event>, i: nat)
    requires i < |events|
  {
    Fails(Before(rnd, events, i), events[i])
  }

  ghost predicate Positive(events: seq<Event>) {
    forall i :: 0 <= i < |events| ==> events[i].ts > 0
  }

  lemma BeforeStep(rnd: Rounding, events: seq<Event>, i: nat)
    requires i < |events|
    ensures Before(rnd, events, i + 1) == Update(rnd, Before(rnd, events, i), events[i])
  {
    assert events[..i + 1][..i] == events[..i];
  }

  /** e is the earliest arrival among the events with the largest rounded timestamp. */
  ghost predicate EarliestNewest(rnd: Rounding, events: seq<Event>, k: nat) {
    && k < |events|
    && (forall j :: 0 <= j < |events| ==> rnd(events[j].ts) <= rnd(events[k].ts))
    && (forall j :: 0 <= j < k ==> rnd(events[j].ts) < rnd(events[k].ts))
  }

  lemma {:induction false} NewestIndex(rnd: Rounding, events: seq<Event>) returns (k: nat)
    requires KeepsPositive(rnd) && Positive(events) && events != []
    ensures EarliestNewest(rnd, events, k) && Run(rnd, events) == Some(Stored(rnd(events[k].ts), events[k]))
    decreases |events|
  {
    var p, n := events[..|events| - 1], |events| - 1;
    if p == [] {
      k := 0;
      assert Run(rnd, p) == None;
    } else {
      k := NewestIndex(rnd, p);
      assert events == p + [events[n]];
      NewestStep(rnd, p, events[n], k);
      k := if rnd(events[n].ts) > rnd(p[k].ts) then n else k;
    }
  }

  /** After any arrival order the register holds the earliest arrival among those with the largest
      rounded timestamp. */
  lemma RegisterHoldsEarliestNewest(rnd: Rounding, events: seq<Event>)
    requires KeepsPositive(rnd) && Positive(events) && events != []
    ensures exists k: nat :: && EarliestNewest(rnd, events, k)
                             && Run(rnd, events) == Some(Stored(rnd(events[k].ts), events[k]))
  {
    var k := NewestIndex(rnd, events);
  }

  lemma NewestStep(rnd: Rounding, p: seq<Event>, e: Event, k: nat)
    requires EarliestNewest(rnd, p, k)
    ensures EarliestNewest(rnd, p + [e], if rnd(e.ts) > rnd(p[k].ts) then |p| else k)
  {
  }

  /** Two arrival orders of the same events leave the same rounded timestamp, and the same event when
      rounding keeps different events apart. */
  lemma RegisterIsOrderIndependent(rnd: Rounding, a: seq<Event>, b: seq<Event>)
    requires KeepsPositive(rnd) && Positive(a) && a != [] && multiset(a) == multiset(b)
    ensures Run(rnd, b).Some? && Run(rnd, a).Some? && Run(rnd, a).value.ts == Run(rnd, b).value.ts
    ensures (forall x, y :: x in a && y in a && rnd(x.ts) == rnd(y.ts) ==> x == y) ==> Run(rnd, a) == Run(rnd, b)
  {
    SameMembers(a, b);
    forall i | 0 <= i < |b| ensures b[i].ts > 0 {
      assert b[i] in a;
    }
    var k := NewestIndex(rnd, a);
    var l := NewestIndex(rnd, b);
    SameNewest(rnd, a, b, k, l);
    if forall x, y :: x in a && y in a && rnd(x.ts) == rnd(y.ts) ==> x == y {
      assert a[k] == b[l];
    }
  }

  lemma SameNewest(rnd: Rounding, a: seq<Event>, b: seq<Event>, k: nat, l: nat)
    requires EarliestNewest(rnd, a, k) && EarliestNewest(rnd, b, l)
    requires forall x :: x in a <==> x in b
    ensures rnd(a[k].ts) == rnd(b[l].ts) && b[l] in a && a[k] in a
  {
    assert a[k] in a && b[l] in b;
    assert a[k] in b && b[l] in a;
    var m :| 0 <= m < |b| && b[m] == a[k];
    var n :| 0 <= n < |a| && a[n] == b[l];
  }

  lemma SameMembers(a: seq<Event>, b: seq<Event>)
    requires multiset(a) == multiset(b)
    ensures |a| == |b| && forall x :: x in a <==> x in b
  {
    assert |a| == |multiset(a)| == |multiset(b)| == |b|;
    forall x ensures x in a <==> x in b {
      assert x in a <==> x in multiset(a);
      assert x in b <==> x in multiset(b);
    }
  }

  /** What the register holds after n events is event `LastAdvance`. */
  function LastAdvance(rnd: Rounding, events: seq<Event>, n: nat): nat
    requires n <= |events|
  {
    if n == 0 || Advances(rnd, events, n - 1) then (if n == 0 then 0 else n - 1) else LastAdvance(rnd, events, n - 1)
  }

  lemma {:induction false} LastAdvanceHolds(rnd: Rounding, events: seq<Event>, n: nat)
    requires n <= |events| && Before(rnd, events, n).Some?
    ensures var k := LastAdvance(rnd, events, n);
            && k < n && Advances(rnd, events, k)
            && Before(rnd, events, n) == Some(Stored(rnd(events[k].ts), events[k]))
            && forall m :: k < m < n ==> !Advances(rnd, events, m)
    decreases n
  {
    if n > 0 {
      BeforeStep(rnd, events, n - 1);
      if !Advances(rnd, events, n - 1) {
        LastAdvanceHolds(rnd, events, n - 1);
      }
    }
  }

  /** An advancing event is strictly newer, by exact timestamps, than the event it replaces. */
  lemma AdvanceIsNewer(rnd: Rounding, events: seq<Event>, i: nat)
    requires Monotone(rnd) && i < |events| && Before(rnd, events, i).Some?
    ensures Advances(rnd, events, i) ==> events[i].ts > Before(rnd, events, i).value.data.ts
  {
    LastAdvanceHolds(rnd, events, i);
  }

  /** With the places the two events are compared by: faster than the limit allows. */
  ghost predicate TooFar(dist: Distance, from: Event, to: Event) {
    from.place.Some? && to.place.Some? && dist(from.place.value, to.place.value) > Reach(to.ts - from.ts)
  }

  /** Over any arrival order: an event is flagged exactly when it is strictly newer, by exact timestamps, than the
      earliest arrival among the newest events before it, and too far from it; so it is newer, to within
      rounding, than everything before it, and a late event is never flagged. */
  lemma FlaggedIff(dist: Distance, rnd: Rounding, events: seq<Event>, i: nat, k: nat)
    requires Monotone(rnd) && KeepsPositive(rnd) && Positive(events) && i < |events|
    requires EarliestNewest(rnd, events[..i], k)
    ensures Flagged(dist, rnd, events, i) <==> events[i].ts > events[k].ts && TooFar(dist, events[k], events[i])
    ensures Flagged(dist, rnd, events, i) ==> forall j :: 0 <= j < i ==> rnd(events[j].ts) <= rnd(events[i].ts)
    ensures FailedAt(rnd, events, i) <==> events[k].place.None? || events[i].place.None?
  {
    var p := events[..i];
    forall j | 0 <= j < |p| ensures p[j].ts > 0 {
      assert p[j] == events[j];
    }
    var l := NewestIndex(rnd, p);
    assert l == k;
    if events[i].ts > events[k].ts {
      assert forall j :: 0 <= j < i ==> rnd(events[j].ts) == rnd(p[j].ts) <= rnd(events[i].ts);
      if !FailedAt(rnd, events, i) {
        SpeedIsRatio(dist(events[k].place.value, events[i].place.value), events[i].ts - events[k].ts);
      }
    }
  }

  /** A concrete run: an event without a place makes the evaluation of the next one fail, although that has one. */
  lemma PlacelessEventFailsTheNext(rnd: Rounding, place: Location)
    requires KeepsPositive(rnd)
    ensures var events := [Event(1, None), Event(2, Some(place))];
            !FailedAt(rnd, events, 0) && FailedAt(rnd, events, 1)
  {
    var events := [Event(1, None), Event(2, Some(place))];
    BeforeStep(rnd, events, 0);
    assert events[..0] == [];
  }

  /** One hour apart, more than 900 km is flagged, and 900 km is not. */
  lemma OneHourApart(dist: Distance, rnd: Rounding, p: Location, q: Location)
    requires KeepsPositive(rnd)
    ensures var events := [Event(1, Some(p)), Event(3600000000001, Some(q))];
            Flagged(dist, rnd, events, 1) <==> dist(p, q) > 900.0
  {
    var events := [Event(1, Some(p)), Event(3600000000001, Some(q))];
    BeforeStep(rnd, events, 0);
    assert events[..0] == [];
    assert Before(rnd, events, 1) == Some(Stored(rnd(1), events[0]));
    SpeedIsRatio(dist(p, q), 3600000000000);
    assert Hours(3600000000000) == 1.0;
  }

  // ----- teleports -----

  lemma SpeedIsRatio(d: real, ns: int)
    requires ns > 0
    ensures d / Hours(ns) > SPEED_LIMIT_KMH <==> d > SPEED_LIMIT_KMH * Hours(ns)
  {
  }

  /** The distance that can be covered in the given time at the speed limit. */
  function Reach(ns: int): real {
    SPEED_LIMIT_KMH * Hours(ns)
  }

  /** One link of the chain: an advancing event that is neither flagged nor fails. */
  lemma UnflaggedLinkIsSlow(dist: Distance, rnd: Rounding, events: seq<Event>, p: nat, j: nat)
    requires Monotone(rnd) && p < j < |events| && Advances(rnd, events, j)
    requires Before(rnd, events, j) == Some(Stored(rnd(events[p].ts), events[p]))
    requires !Flagged(dist, rnd, events, j) && !FailedAt(rnd, events, j)
    ensures events[p].place.Some? && events[j].place.Some?
    ensures dist(events[p].place.value, events[j].place.value) <= Reach(events[j].ts - events[p].ts)
  {
    AdvanceIsNewer(rnd, events, j);
    SpeedIsRatio(dist(events[p].place.value, events[j].place.value), events[j].ts - events[p].ts);
  }

  lemma ReachAdds(a: int, b: int, c: int)
    ensures Reach(c - a) == Reach(b - a) + Reach(c - b)
  {
  }

  lemma {:induction false} UnflaggedChainIsSlow(dist: Distance, rnd: Rounding, events: seq<Event>, i: nat, j: nat)
    requires Metric(dist) && Monotone(rnd) && i <= j < |events| && events[i].place.Some?
    requires Advances(rnd, events, i) && Advances(rnd, events, j)
    requires forall m :: i < m <= j && Advances(rnd, events, m) ==>
               !Flagged(dist, rnd, events, m) && !FailedAt(rnd, events, m)
    ensures events[j].place.Some?
    ensures dist(events[i].place.value, events[j].place.value) <= Reach(events[j].ts - events[i].ts)
    decreases j
  {
    if i < j {
      RegisterStays(rnd, events, i, j);
      LastAdvanceHolds(rnd, events, j);
      var p := LastAdvance(rnd, events, j);
      assert p >= i;
      UnflaggedChainIsSlow(dist, rnd, events, i, p);
      UnflaggedLinkIsSlow(dist, rnd, events, p, j);
      ReachAdds(events[i].ts, events[p].ts, events[j].ts);
    }
  }

  lemma {:induction false} RegisterStays(rnd: Rounding, events: seq<Event>, i: nat, j: nat)
    requires i < j <= |events| && Advances(rnd, events, i)
    ensures Before(rnd, events, j).Some?
    decreases j
  {
    BeforeStep(rnd, events, j - 1);
    if i < j - 1 {
      RegisterStays(rnd, events, i, j - 1);
    }
  }

  /** Along the events that advanced a user's register, if any two are farther apart than the speed limit
      allows for their elapsed time, one of them after the first and up to the second was flagged or made
      the rule fail; when all events have places, it was flagged. */
  lemma TeleportIsFlagged(dist: Distance, rnd: Rounding, events: seq<Event>, i: nat, j: nat)
    requires Metric(dist) && Monotone(rnd) && i < j < |events|
    requires Advances(rnd, events, i) && Advances(rnd, events, j) && TooFar(dist, events[i], events[j])
    ensures exists m :: && i < m <= j && Advances(rnd, events, m)
                        && (Flagged(dist, rnd, events, m) || FailedAt(rnd, events, m))
    ensures (forall m :: i <= m <= j ==> events[m].place.Some?) ==>
              exists m :: i < m <= j && Advances(rnd, events, m) && Flagged(dist, rnd, events, m)
  {
    if forall m :: i < m <= j && Advances(rnd, events, m) ==>
         !Flagged(dist, rnd, events, m) && !FailedAt(rnd, events, m) {
      UnflaggedChainIsSlow(dist, rnd, events, i, j);
    }
    var m :| i < m <= j && Advances(rnd, events, m) && (Flagged(dist, rnd, events, m) || FailedAt(rnd, events, m));
    if forall n :: i <= n <= j ==> events[n].place.Some? {
      RegisterStays(rnd, events, i, m);
      LastAdvanceHolds(rnd, events, m);
      assert LastAdvance(rnd, events, m) >= i;
    }
  }
}
