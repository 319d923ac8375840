/** Alert deduplication: `dispatchFlag` takes a lock with SET NX PX, publishes, and deletes the lock
    when anything after that throws. Many dispatchers of one transaction interleave; the lock expires. */
module AlertLock {
  import opened Wrappers

  type Dispatcher = nat

  const TTL_MS: int := 3600 * 1000

  /** The Redis key of one transaction. The owner is history: Redis stores only '1' and the expiry. */
  datatype Lock = Lock(owner: Dispatcher, until: int)

  /** `Cleaning` is inside the catch block, with the time of acquisition if the lock was taken. */
  datatype Phase = Skipped | Holding(at: int) | Sent(at: int) | Cleaning(taken: Option<int>) | Finished | Threw

  datatype Publication = Publication(who: Dispatcher, at: int)

  datatype State = State(now: int, key: Option<Lock>, phases: map<Dispatcher, Phase>, published: seq<Publication>)

  const INIT: State := State(0, None, map[], [])

  /** A call that throws may have taken effect before: `applied`. `LogThrows` stands for any of the metric
      and log calls. */
  datatype Step =
    | Tick(to: int)
    | Set(who: Dispatcher)
    | SetThrows(who: Dispatcher, applied: bool)
    | PublishOk(who: Dispatcher)
    | PublishThrows(who: Dispatcher, applied: bool)
    | Finish(who: Dispatcher)
    | LogThrows(who: Dispatcher)
    | Delete(who: Dispatcher)
    | DeleteThrows(who: Dispatcher, applied: bool)

  /** Redis drops the key when its time is over. */
  predicate Locked(s: State) {
    s.key.Some? && s.now < s.key.value.until
  }

  function To(s: State, i: Dispatcher, p: Phase): State {
    s.(phases := s.phases[i := p])
  }

  function Apply(s: State, step: Step): Option<State> {
    match step
    case Tick(t) => if t >= s.now then Some(s.(now := t)) else None
    case Set(i) =>
      if i in s.phases then None
      else if Locked(s) then Some(To(s, i, Skipped))
      else Some(To(s.(key := Some(Lock(i, s.now + TTL_MS))), i, Holding(s.now)))
    case SetThrows(i, applied) =>
      if i in s.phases then None
      else if applied && !Locked(s) then Some(To(s.(key := Some(Lock(i, s.now + TTL_MS))), i, Cleaning(None)))
      else Some(To(s, i, Cleaning(None)))
    case PublishOk(i) =>
      if i in s.phases && s.phases[i].Holding? then
        Some(To(s.(published := s.published + [Publication(i, s.phases[i].at)]), i, Sent(s.phases[i].at)))
      else None
    case PublishThrows(i, applied) =>
      if i in s.phases && s.phases[i].Holding? then
        var at := s.phases[i].at;
        Some(To(if applied then s.(published := s.published + [Publication(i, at)]) else s, i, Cleaning(Some(at))))
      else None
    case Finish(i) =>
      if i in s.phases && (s.phases[i].Sent? || s.phases[i].Skipped?) then Some(To(s, i, Finished)) else None
    case LogThrows(i) =>
      if i in s.phases && s.phases[i].Sent? then Some(To(s, i, Cleaning(Some(s.phases[i].at))))
      else if i in s.phases && s.phases[i].Skipped? then Some(To(s, i, Cleaning(None)))
      else None
    case Delete(i) => if i in s.phases && s.phases[i].Cleaning? then Some(To(s.(key := None), i, Threw)) else None
    case DeleteThrows(i, applied) =>
      if i in s.phases && s.phases[i].Cleaning?
      then Some(To(if applied then s.(key := None) else s, i, Threw)) else None
  }

  /** i took the lock and has neither sent nor given it back. */
  predicate Holder(s: State, i: Dispatcher) {
    i in s.phases && (s.phases[i].Holding? || (s.phases[i].Cleaning? && s.phases[i].taken.Some?))
  }

  function TakenAt(s: State, i: Dispatcher): int
    requires Holder(s, i)
  {
    if s.phases[i].Holding? then s.phases[i].at else s.phases[i].taken.value
  }

  /** What can go wrong: SET throws, a metric or log call throws, a publication reaches the broker but is
      reported as failed, or a holder's lock runs out. */
  datatype Fault = SetThrew | LogThrew | AckLost | Outlived

  const ALL_FAULTS: set<Fault> := {SetThrew, LogThrew, AckLost, Outlived}

  /** The fault that a step is, if any. */
  function FaultsOf(s: State, step: Step): set<Fault> {
    match step
    case SetThrows(_, _) => {SetThrew}
    case LogThrows(_) => {LogThrew}
    case PublishThrows(_, applied) => if applied then {AckLost} else {}
    case Tick(to) =>
      if exists i :: i in s.phases && Holder(s, i) && to >= TakenAt(s, i) + TTL_MS then {Outlived} else {}
    case _ => {}
  }

  /** A run in which nothing goes wrong but the given faults. */
  function Run(faults: set<Fault>, s: State, steps: seq<Step>): Option<State>
    decreases |steps|
  {
    if steps == [] then Some(s)
    else if !(FaultsOf(s, steps[0]) <= faults) then None
    else
      var t :- Apply(s, steps[0]);
      Run(faults, t, steps[1..])
  }

  predicate HolderOk(s: State, i: Dispatcher)
    requires Holder(s, i)
  {
    && TakenAt(s, i) <= s.now < TakenAt(s, i) + TTL_MS
    && s.key == Some(Lock(i, TakenAt(s, i) + TTL_MS))
  }

  /** A published alert's lock is still the key until it expires. */
  predicate PublicationOk(s: State, p: Publication) {
    && p.at <= s.now
    && (s.now < p.at + TTL_MS ==> s.key == Some(Lock(p.who, p.at + TTL_MS)))
    && p.who in s.phases && (s.phases[p.who].Sent? || s.phases[p.who].Finished?)
  }

  ghost predicate Apart(published: seq<Publication>) {
    forall p, q :: 0 <= p < q < |published| ==> published[q].at - published[p].at >= TTL_MS
  }

  ghost predicate Inv(s: State) {
    && (forall i :: Holder(s, i) ==> HolderOk(s, i))
    && (forall i :: i in s.phases && s.phases[i].Cleaning? ==> Holder(s, i))
    && (forall p :: p in s.published ==> PublicationOk(s, p))
    && (forall p, i :: p in s.published && Holder(s, i) ==> TakenAt(s, i) - p.at >= TTL_MS)
    && Apart(s.published)
  }

  lemma SetKeeps(s: State, i: Dispatcher)
    requires Inv(s) && Apply(s, Set(i)).Some?
    ensures Inv(Apply(s, Set(i)).value)
  {
    var t := Apply(s, Set(i)).value;
    forall j | Holder(t, j) && j != i ensures Holder(s, j) && HolderOk(t, j) {
      assert Holder(s, j) && HolderOk(s, j);
    }
    forall p | p in t.published ensures PublicationOk(t, p) {
      assert PublicationOk(s, p) && p.who != i;
    }
  }

  lemma PublishKeeps(s: State, i: Dispatcher)
    requires Inv(s) && Apply(s, PublishOk(i)).Some?
    ensures Inv(Apply(s, PublishOk(i)).value)
  {
    var t := Apply(s, PublishOk(i)).value;
    assert Holder(s, i) && HolderOk(s, i);
    forall j ensures !Holder(t, j) {
      assert Holder(t, j) ==> Holder(s, j) && j != i;
      assert Holder(s, j) ==> HolderOk(s, j);
    }
    forall p | p in t.published ensures PublicationOk(t, p) {
      if p in s.published {
        assert PublicationOk(s, p);
      }
    }
    forall p, q | 0 <= p < q < |t.published| ensures t.published[q].at - t.published[p].at >= TTL_MS {
      assert t.published[p] == s.published[p] && s.published[p] in s.published;
      if q < |s.published| {
        assert t.published[q] == s.published[q];
      }
    }
  }

  lemma DeleteKeeps(s: State, i: Dispatcher)
    requires Inv(s) && Apply(s, Delete(i)).Some?
    ensures Inv(Apply(s, Delete(i)).value)
  {
    var t := Apply(s, Delete(i)).value;
    assert Holder(s, i) && HolderOk(s, i);
    forall j ensures !Holder(t, j) {
      assert Holder(t, j) ==> Holder(s, j) && j != i;
      assert Holder(s, j) ==> HolderOk(s, j);
    }
    forall p | p in t.published ensures PublicationOk(t, p) {
      assert PublicationOk(s, p) && TakenAt(s, i) - p.at >= TTL_MS;
    }
  }

  /** The steps that change nothing but one dispatcher's phase. */
  lemma PhaseKeeps(s: State, i: Dispatcher, p: Phase)
    requires Inv(s) && i in s.phases
    requires p.Finished? ==> s.phases[i].Sent? || s.phases[i].Skipped?
    requires p.Threw? ==> s.phases[i].Cleaning?
    requires p.Cleaning? ==> s.phases[i].Holding? && p.taken == Some(s.phases[i].at)
    requires p.Finished? || p.Threw? || p.Cleaning?
    ensures Inv(To(s, i, p))
  {
    var t := To(s, i, p);
    forall j | Holder(t, j) ensures Holder(s, j) && TakenAt(s, j) == TakenAt(t, j) && HolderOk(t, j) {
      assert Holder(s, j) && HolderOk(s, j);
    }
    forall q | q in t.published ensures PublicationOk(t, q) {
      assert PublicationOk(s, q);
    }
  }

  lemma TickKeeps(s: State, to: int)
    requires Inv(s) && FaultsOf(s, Tick(to)) == {} && to >= s.now
    ensures Inv(s.(now := to))
  {
    var t := s.(now := to);
    forall j | Holder(t, j) ensures HolderOk(t, j) {
      assert Holder(s, j) && HolderOk(s, j);
    }
    forall p | p in t.published ensures PublicationOk(t, p) {
      assert PublicationOk(s, p);
    }
  }

  lemma StepKeeps(s: State, step: Step)
    requires Inv(s) && FaultsOf(s, step) == {} && Apply(s, step).Some?
    ensures Inv(Apply(s, step).value)
  {
    match step
    case Tick(to) => TickKeeps(s, to);
    case Set(i) => SetKeeps(s, i);
    case PublishOk(i) => PublishKeeps(s, i);
    case Delete(i) => DeleteKeeps(s, i);
    case PublishThrows(i, _) => PhaseKeeps(s, i, Cleaning(Some(s.phases[i].at)));
    case Finish(i) => PhaseKeeps(s, i, Finished);
    case DeleteThrows(i, applied) =>
      if applied {
        DeleteKeeps(s, i);
      } else {
        PhaseKeeps(s, i, Threw);
      }
    case _ =>
  }

  lemma {:induction false} RunKeeps(s: State, steps: seq<Step>)
    requires Inv(s) && Run({}, s, steps).Some?
    ensures Inv(Run({}, s, steps).value)
    decreases |steps|
  {
    if steps != [] {
      StepKeeps(s, steps[0]);
      RunKeeps(Apply(s, steps[0]).value, steps[1..]);
    }
  }

  /** In every interleaving without a fault at most one dispatcher holds the lock, whoever is about to delete
      the key owns it, and the acquisitions of any two publications are at least the TTL apart. */
  lemma AlertsAreDeduplicated(steps: seq<Step>)
    requires Run({}, INIT, steps).Some?
    ensures var s := Run({}, INIT, steps).value;
            && (forall i, j :: Holder(s, i) && Holder(s, j) ==> i == j)
            && (forall i :: i in s.phases && s.phases[i].Cleaning? ==> Locked(s) && s.key.value.owner == i)
            && Apart(s.published)
  {
    RunKeeps(INIT, steps);
    var s := Run({}, INIT, steps).value;
    forall i, j | Holder(s, i) && Holder(s, j) ensures i == j {
      assert HolderOk(s, i) && HolderOk(s, j);
    }
    forall i | i in s.phases && s.phases[i].Cleaning? ensures Locked(s) && s.key.value.owner == i {
      assert Holder(s, i) && HolderOk(s, i);
    }
  }

  // ----- each fault alone lets an alert go out twice -----

  /** Two publications without any time between them. */
  predicate SentTwiceAtOnce(s: State) {
    |s.published| >= 2 && s.published[0].at == s.published[1].at
  }

  /** A run with no fault but f that sends one alert twice at once. */
  function Witness(f: Fault): seq<Step> {
    match f
    case SetThrew => [Set(0), PublishOk(0)] + [SetThrows(1, false), Delete(1)] + [Set(2), PublishOk(2)]
    case LogThrew => [Set(0), PublishOk(0)] + [LogThrows(0), Delete(0)] + [Set(2), PublishOk(2)]
    case AckLost => [Set(0), PublishThrows(0, true)] + [Delete(0)] + [Set(2), PublishOk(2)]
    case Outlived =>
      [Set(0), Tick(TTL_MS)] + [Set(1), PublishThrows(0, false)] + [Delete(0), PublishOk(1)] + [Set(2), PublishOk(2)]
  }

  predicate WitnessOk(f: Fault) {
    var t := Run({f}, INIT, Witness(f));
    t.Some? && SentTwiceAtOnce(t.value)
  }

  lemma {:induction false} RunAppend(faults: set<Fault>, s: State, a: seq<Step>, b: seq<Step>)
    requires Run(faults, s, a).Some?
    ensures Run(faults, s, a + b) == Run(faults, Run(faults, s, a).value, b)
    decreases |a|
  {
    if a == [] {
      assert a + b == b;
    } else {
      assert (a + b)[1..] == a[1..] + b;
      RunAppend(faults, Apply(s, a[0]).value, a[1..], b);
    }
  }

  lemma RunOne(faults: set<Fault>, s: State, a: Step)
    requires FaultsOf(s, a) <= faults
    ensures Run(faults, s, [a]) == Apply(s, a)
  {
    assert [a][1..] == [];
  }

  lemma RunTwo(faults: set<Fault>, s: State, a: Step, b: Step, t: State)
    requires FaultsOf(s, a) <= faults && Apply(s, a) == Some(t) && FaultsOf(t, b) <= faults
    ensures Run(faults, s, [a, b]) == Apply(t, b)
  {
    RunOne(faults, t, b);
    assert [a, b][1..] == [b];
  }

  /** A dispatcher that finds no lock publishes. */
  lemma Publishes(faults: set<Fault>, s: State, i: Dispatcher)
    requires i !in s.phases && !Locked(s)
    ensures Run(faults, s, [Set(i), PublishOk(i)]).Some?
    ensures Run(faults, s, [Set(i), PublishOk(i)]).value.published == s.published + [Publication(i, s.now)]
  {
    RunTwo(faults, s, Set(i), PublishOk(i), Apply(s, Set(i)).value);
  }

  /** An unlocked state after one publication at the present time: the next dispatcher repeats it. */
  lemma Repeats(faults: set<Fault>, steps: seq<Step>, s: State)
    requires Run(faults, INIT, steps) == Some(s)
    requires !Locked(s) && 2 !in s.phases && |s.published| == 1 && s.published[0].at == s.now
    ensures Run(faults, INIT, steps + [Set(2), PublishOk(2)]).Some?
    ensures SentTwiceAtOnce(Run(faults, INIT, steps + [Set(2), PublishOk(2)]).value)
  {
    RunAppend(faults, INIT, steps, [Set(2), PublishOk(2)]);
    Publishes(faults, s, 2);
  }

  /** The state after dispatcher 0 has taken the lock at time 0, and after it has published. */
  const TAKEN: State := State(0, Some(Lock(0, TTL_MS)), map[0 := Holding(0)], [])

  const SENT: State := State(0, Some(Lock(0, TTL_MS)), map[0 := Sent(0)], [Publication(0, 0)])

  lemma SentRun(faults: set<Fault>)
    ensures Run(faults, INIT, [Set(0), PublishOk(0)]) == Some(SENT)
  {
    RunTwo(faults, INIT, Set(0), PublishOk(0), TAKEN);
    assert TAKEN.phases[0 := Sent(0)] == SENT.phases;
    assert TAKEN.published + [Publication(0, 0)] == SENT.published;
  }

  lemma SetThrewRepeats()
    ensures WitnessOk(SetThrew)
  {
    var t := To(SENT, 1, Cleaning(None));
    SentRun({SetThrew});
    RunTwo({SetThrew}, SENT, SetThrows(1, false), Delete(1), t);
    RunAppend({SetThrew}, INIT, [Set(0), PublishOk(0)], [SetThrows(1, false), Delete(1)]);
    Repeats({SetThrew}, [Set(0), PublishOk(0)] + [SetThrows(1, false), Delete(1)], Apply(t, Delete(1)).value);
  }

  lemma LogThrewRepeats()
    ensures WitnessOk(LogThrew)
  {
    var t := To(SENT, 0, Cleaning(Some(0)));
    SentRun({LogThrew});
    RunTwo({LogThrew}, SENT, LogThrows(0), Delete(0), t);
    RunAppend({LogThrew}, INIT, [Set(0), PublishOk(0)], [LogThrows(0), Delete(0)]);
    Repeats({LogThrew}, [Set(0), PublishOk(0)] + [LogThrows(0), Delete(0)], Apply(t, Delete(0)).value);
  }

  lemma AckLostRepeats()
    ensures WitnessOk(AckLost)
  {
    var t := Apply(TAKEN, PublishThrows(0, true)).value;
    RunTwo({AckLost}, INIT, Set(0), PublishThrows(0, true), TAKEN);
    RunOne({AckLost}, t, Delete(0));
    RunAppend({AckLost}, INIT, [Set(0), PublishThrows(0, true)], [Delete(0)]);
    Repeats({AckLost}, [Set(0), PublishThrows(0, true)] + [Delete(0)], Apply(t, Delete(0)).value);
  }

  /** A holder that outlives its lock deletes the lock of the next one. */
  lemma OutlivedRepeats()
    ensures WitnessOk(Outlived)
  {
    var expired := TAKEN.(now := TTL_MS);
    RunTwo({Outlived}, INIT, Set(0), Tick(TTL_MS), TAKEN);
    var both := Apply(expired, Set(1)).value;
    var cleaning := Apply(both, PublishThrows(0, false)).value;
    RunTwo({Outlived}, expired, Set(1), PublishThrows(0, false), both);
    RunAppend({Outlived}, INIT, [Set(0), Tick(TTL_MS)], [Set(1), PublishThrows(0, false)]);
    var first := [Set(0), Tick(TTL_MS)] + [Set(1), PublishThrows(0, false)];
    var freed := Apply(cleaning, Delete(0)).value;
    RunTwo({Outlived}, cleaning, Delete(0), PublishOk(1), freed);
    RunAppend({Outlived}, INIT, first, [Delete(0), PublishOk(1)]);
    Repeats({Outlived}, first + [Delete(0), PublishOk(1)], Apply(freed, PublishOk(1)).value);
  }

  /** Each fault alone, with none of the others, lets the same alert go out twice at the same moment. */
  lemma WithoutTheAssumptionsAlertsRepeat(f: Fault)
    ensures Run({f}, INIT, Witness(f)).Some? && SentTwiceAtOnce(Run({f}, INIT, Witness(f)).value)
  {
    match f
    case SetThrew => SetThrewRepeats();
    case LogThrew => LogThrewRepeats();
    case AckLost => AckLostRepeats();
    case Outlived => OutlivedRepeats();
  }

  /** More faults permit more runs. */
  lemma {:induction false} RunWiden(few: set<Fault>, many: set<Fault>, s: State, steps: seq<Step>)
    requires few <= many && Run(few, s, steps).Some?
    ensures Run(many, s, steps) == Run(few, s, steps)
    decreases |steps|
  {
    if steps != [] {
      RunWiden(few, many, Apply(s, steps[0]).value, steps[1..]);
    }
  }

  ghost predicate Deduplicated(faults: set<Fault>, steps: seq<Step>) {
    Run(faults, INIT, steps).Some? ==> Apart(Run(faults, INIT, steps).value.published)
  }

  /** Alerts are deduplicated in every run with the given faults exactly when there are none. */
  lemma DeduplicatedIffNoFault(faults: set<Fault>)
    ensures (forall steps :: Deduplicated(faults, steps)) <==> faults == {}
  {
    if faults == {} {
      forall steps ensures Deduplicated(faults, steps) {
        if Run(faults, INIT, steps).Some? {
          AlertsAreDeduplicated(steps);
        }
      }
    } else {
      var f :| f in faults;
      WithoutTheAssumptionsAlertsRepeat(f);
      RunWiden({f}, faults, INIT, Witness(f));
      assert !Deduplicated(faults, Witness(f));
    }
  }

  // ----- when a normal return means that an alert went out -----

  /** How a lock can be taken without a publication: the publication fails, or SET takes effect but throws. */
  datatype Loss = NotPublished | SetUnanswered

  function LossesOf(step: Step): set<Loss> {
    match step
    case PublishThrows(_, applied) => if applied then {} else {NotPublished}
    case SetThrows(_, applied) => if applied then {SetUnanswered} else {}
    case _ => {}
  }

  ghost predicate OnlyLosses(losses: set<Loss>, steps: seq<Step>) {
    forall st :: st in steps ==> LossesOf(st) <= losses
  }

  predicate SentBy(s: State, i: Dispatcher) {
    exists k :: 0 <= k < |s.published| && s.published[k].who == i
  }

  /** i has sent the alert or still can; with losses, i may also have thrown. */
  predicate Answers(s: State, i: Dispatcher, losses: set<Loss>) {
    i in s.phases &&
    (s.phases[i].Holding? || SentBy(s, i) || (losses != {} && (s.phases[i].Cleaning? || s.phases[i].Threw?)))
  }

  predicate Passed(s: State, i: Dispatcher) {
    i in s.phases && (s.phases[i].Skipped? || s.phases[i].Sent? || s.phases[i].Finished?)
  }

  /** Whoever set the key answers for the alert, and so does somebody once a call has gone through. */
  ghost predicate Answered(s: State, losses: set<Loss>) {
    && (s.key.Some? ==> Answers(s, s.key.value.owner, losses))
    && ((exists i :: Passed(s, i)) ==> exists o :: Answers(s, o, losses))
  }

  /** Whoever answers goes on to answer. */
  lemma StillAnswers(s: State, step: Step, losses: set<Loss>, o: Dispatcher)
    requires Apply(s, step).Some? && LossesOf(step) <= losses && Answers(s, o, losses)
    ensures Answers(Apply(s, step).value, o, losses)
  {
    var t := Apply(s, step).value;
    if SentBy(s, o) {
      var k :| 0 <= k < |s.published| && s.published[k].who == o;
      assert t.published[k] == s.published[k];
    } else if step.PublishOk? || step.PublishThrows? {
      if step.who == o && t.published != s.published {
        assert t.published[|s.published|].who == o;
      }
    }
  }

  /** A call goes through by publishing under its own lock or by finding one. */
  lemma FirstPass(s: State, step: Step, losses: set<Loss>, i: Dispatcher) returns (o: Dispatcher)
    requires Apply(s, step).Some? && Answered(s, losses) && Passed(Apply(s, step).value, i) && !Passed(s, i)
    ensures Answers(s, o, losses)
  {
    o := if step.Set? then s.key.value.owner else i;
  }

  lemma StepAnswered(s: State, step: Step, losses: set<Loss>)
    requires Apply(s, step).Some? && LossesOf(step) <= losses && Answered(s, losses)
    ensures Answered(Apply(s, step).value, losses)
  {
    var t := Apply(s, step).value;
    if s.key.Some? {
      StillAnswers(s, step, losses, s.key.value.owner);
    }
    if i :| Passed(t, i) {
      var o;
      if Passed(s, i) {
        o :| Answers(s, o, losses);
      } else {
        o := FirstPass(s, step, losses, i);
      }
      StillAnswers(s, step, losses, o);
    }
  }

  lemma {:induction false} RunAnswered(s: State, steps: seq<Step>, losses: set<Loss>)
    requires Run(ALL_FAULTS, s, steps).Some? && OnlyLosses(losses, steps) && Answered(s, losses)
    ensures Answered(Run(ALL_FAULTS, s, steps).value, losses)
    decreases |steps|
  {
    if steps != [] {
      assert steps[0] in steps && forall st :: st in steps[1..] ==> st in steps;
      StepAnswered(s, steps[0], losses);
      RunAnswered(Apply(s, steps[0]).value, steps[1..], losses);
    }
  }

  /** Every call is over, and one of them returned normally. */
  ghost predicate ReturnedNormally(s: State) {
    && (forall i :: i in s.phases ==> s.phases[i].Finished? || s.phases[i].Threw?)
    && exists i :: i in s.phases && s.phases[i].Finished?
  }

  /** If every call has returned normally, an alert reached the broker, whatever went wrong on the way. */
  lemma NoThrowMeansSent(steps: seq<Step>)
    requires Run(ALL_FAULTS, INIT, steps).Some? && ReturnedNormally(Run(ALL_FAULTS, INIT, steps).value)
    requires forall i :: i in Run(ALL_FAULTS, INIT, steps).value.phases ==>
               !Run(ALL_FAULTS, INIT, steps).value.phases[i].Threw?
    ensures Run(ALL_FAULTS, INIT, steps).value.published != []
  {
    var losses := {NotPublished, SetUnanswered};
    var s := Run(ALL_FAULTS, INIT, steps).value;
    assert OnlyLosses(losses, steps);
    RunAnswered(INIT, steps, losses);
    var i :| i in s.phases && s.phases[i].Finished?;
    assert Passed(s, i);
    var o :| Answers(s, o, losses);
    assert SentBy(s, o);
  }

  /** A normal return means that an alert reached the broker. */
  ghost predicate Delivers(losses: set<Loss>, steps: seq<Step>) {
    var t := Run(ALL_FAULTS, INIT, steps);
    OnlyLosses(losses, steps) && t.Some? && ReturnedNormally(t.value) ==> t.value.published != []
  }

  /** A call that finds the lock of one that never publishes returns normally. */
  function Silent(loss: Loss): seq<Step> {
    match loss
    case NotPublished => [Set(0), PublishThrows(0, false)] + [Set(1), Finish(1)] + [Delete(0)]
    case SetUnanswered => [SetThrows(0, true)] + [Set(1), Finish(1)] + [Delete(0)]
  }

  /** The second half of both runs. */
  lemma SilentEnd(first: seq<Step>, s: State)
    requires Run(ALL_FAULTS, INIT, first) == Some(s) && s.published == [] && Locked(s)
    requires s.phases.Keys == {0} && s.phases[0].Cleaning?
    ensures var t := Run(ALL_FAULTS, INIT, first + [Set(1), Finish(1)] + [Delete(0)]);
            t.Some? && ReturnedNormally(t.value) && t.value.published == []
  {
    var u := Apply(s, Set(1)).value;
    var v := Apply(u, Finish(1)).value;
    var w := Apply(v, Delete(0)).value;
    RunTwo(ALL_FAULTS, s, Set(1), Finish(1), u);
    RunOne(ALL_FAULTS, v, Delete(0));
    RunAppend(ALL_FAULTS, INIT, first, [Set(1), Finish(1)]);
    RunAppend(ALL_FAULTS, INIT, first + [Set(1), Finish(1)], [Delete(0)]);
    assert w.phases[1].Finished? && w.phases[0].Threw?;
  }

  lemma SilentRun(loss: Loss)
    ensures OnlyLosses({loss}, Silent(loss)) && !Delivers({loss}, Silent(loss))
  {
    match loss
    case NotPublished =>
      RunTwo(ALL_FAULTS, INIT, Set(0), PublishThrows(0, false), TAKEN);
      SilentEnd([Set(0), PublishThrows(0, false)], Apply(TAKEN, PublishThrows(0, false)).value);
    case SetUnanswered =>
      RunOne(ALL_FAULTS, INIT, SetThrows(0, true));
      SilentEnd([SetThrows(0, true)], Apply(INIT, SetThrows(0, true)).value);
  }

  /** Once all calls are over, a normal return means that an alert reached the broker, in every run with the
      given losses, exactly when there are none. */
  lemma DeliversIffNoLoss(losses: set<Loss>)
    ensures (forall steps :: Delivers(losses, steps)) <==> losses == {}
  {
    if losses == {} {
      forall steps ensures Delivers(losses, steps) {
        if OnlyLosses(losses, steps) && Run(ALL_FAULTS, INIT, steps).Some? {
          RunAnswered(INIT, steps, losses);
          var s := Run(ALL_FAULTS, INIT, steps).value;
          if ReturnedNormally(s) {
            var i :| i in s.phases && s.phases[i].Finished?;
            assert Passed(s, i);
            var o :| Answers(s, o, losses);
            assert SentBy(s, o);
          }
        }
      }
    } else {
      var loss :| loss in losses;
      SilentRun(loss);
      assert OnlyLosses(losses, Silent(loss));
      assert !Delivers(losses, Silent(loss));
    }
  }

  // ----- one dispatcher running alone -----

  datatype Result = Works | Fails | AppliesThenFails

  /** What the calls of one dispatcher do. */
  datatype Calls = Calls(setting: Result, publish: Result, logWorks: bool, del: Result)

  /** The call throws, given whether somebody else holds the lock. */
  predicate Throws(c: Calls, locked: bool) {
    !c.setting.Works? || !c.logWorks || (!locked && !c.publish.Works?)
  }

  /** The alert reaches the broker. */
  predicate Sends(c: Calls, locked: bool) {
    c.setting.Works? && !locked && !c.publish.Fails?
  }

  /** The steps of one call that nobody interrupts. */
  function Alone(i: Dispatcher, locked: bool, c: Calls): seq<Step> {
    Opening(i, locked, c) + Closing(i, locked, c)
  }

  function Opening(i: Dispatcher, locked: bool, c: Calls): seq<Step> {
    if !c.setting.Works? then [SetThrows(i, c.setting.AppliesThenFails?)]
    else if locked then [Set(i)]
    else if c.publish.Works? then [Set(i), PublishOk(i)]
    else [Set(i), PublishThrows(i, c.publish.AppliesThenFails?)]
  }

  function Closing(i: Dispatcher, locked: bool, c: Calls): seq<Step> {
    var logging := c.setting.Works? && (locked || c.publish.Works?);
    (if !logging then [] else if c.logWorks then [Finish(i)] else [LogThrows(i)]) +
    (if !Throws(c, locked) then [] else if c.del.Works? then [Delete(i)]
     else [DeleteThrows(i, c.del.AppliesThenFails?)])
  }

  class AlertingSubsystem {
    /** Expiry time of each transaction's lock, and the alerts that have reached the broker. */
    var locks: map<string, int>
    var sent: seq<string>

    constructor ()
      ensures locks == map[] && sent == []
    {
      locks := map[];
      sent := [];
    }

    predicate IsLocked(tx: string, now: int)
      reads this
    {
      tx in locks && now < locks[tx]
    }

    /** `dispatchFlag`, with what its calls do given as `c`. An alert goes out exactly when nobody held the
        lock, SET answered and the publication took effect. A call that throws leaves no lock behind, even
        one it did not take, unless DEL fails too; then, and when it does not throw, the lock that was
        there or that it took stays. */
    method DispatchFlag(tx: string, now: int, c: Calls) returns (threw: bool)
      modifies this
      ensures sent == if c.setting.Works? && !old(IsLocked(tx, now)) && !c.publish.Fails?
              then old(sent) + [tx] else old(sent)
      ensures threw <==> || !c.setting.Works? || !c.logWorks
                         || (!old(IsLocked(tx, now)) && !c.publish.Works?)
      ensures threw && !c.del.Fails? ==> tx !in locks
      ensures !threw || c.del.Fails? ==>
                locks == if old(IsLocked(tx, now)) || c.setting.Fails?
                then old(locks) else old(locks)[tx := now + TTL_MS]
      ensures forall other :: other != tx ==>
                (other in locks <==> other in old(locks)) && (other in locks ==> locks[other] == old(locks)[other])
    {
      var setSuccess := !IsLocked(tx, now);
      if setSuccess && !c.setting.Fails? {
        locks := locks[tx := now + TTL_MS];
      }
      threw := !c.setting.Works?;
      if !threw {
        if !setSuccess {
          threw := !c.logWorks;
        } else {
          if !c.publish.Fails? {
            sent := sent + [tx];
          }
          threw := !c.publish.Works? || !c.logWorks;
        }
      }
      if threw && !c.del.Fails? {
        locks := locks - {tx};
      }
    }
  }

  /** One call's effect on the key and the publications, and how it ends. */
  predicate Dispatched(s: State, i: Dispatcher, c: Calls, t: State) {
    && i in t.phases
    && t.phases[i] == (if !c.setting.Works? || !c.logWorks || (!Locked(s) && !c.publish.Works?)
          then Threw else Finished)
    && t.published == (if Sends(c, Locked(s)) then s.published + [Publication(i, s.now)] else s.published)
    && t.key == if Throws(c, Locked(s)) && !c.del.Fails? then None
                else if Locked(s) || c.setting.Fails? then s.key
                else Some(Lock(i, s.now + TTL_MS))
  }

  /** The state between the two halves of an uninterrupted call. */
  predicate Opened(s: State, i: Dispatcher, c: Calls, t: State) {
    && i in t.phases
    && t.published == (if Sends(c, Locked(s)) then s.published + [Publication(i, s.now)] else s.published)
    && t.key == (if Locked(s) || c.setting.Fails? then s.key else Some(Lock(i, s.now + TTL_MS)))
    && if !c.setting.Works? then t.phases[i] == Cleaning(None)
       else if Locked(s) then t.phases[i] == Skipped
       else t.phases[i] == if c.publish.Works? then Sent(s.now) else Cleaning(Some(s.now))
  }

  lemma AloneOpens(s: State, i: Dispatcher, c: Calls)
    requires i !in s.phases
    ensures Run(ALL_FAULTS, s, Opening(i, Locked(s), c)).Some?
    ensures Opened(s, i, c, Run(ALL_FAULTS, s, Opening(i, Locked(s), c)).value)
  {
    var steps := Opening(i, Locked(s), c);
    RunOne(ALL_FAULTS, s, steps[0]);
    if |steps| == 2 {
      RunTwo(ALL_FAULTS, s, steps[0], steps[1], Apply(s, steps[0]).value);
      assert steps == [steps[0], steps[1]];
    }
  }

  lemma AloneCloses(s: State, i: Dispatcher, c: Calls, t: State)
    requires Opened(s, i, c, t)
    ensures Run(ALL_FAULTS, t, Closing(i, Locked(s), c)).Some?
    ensures Dispatched(s, i, c, Run(ALL_FAULTS, t, Closing(i, Locked(s), c)).value)
  {
    var steps := Closing(i, Locked(s), c);
    RunOne(ALL_FAULTS, t, steps[0]);
    if |steps| == 2 {
      RunTwo(ALL_FAULTS, t, steps[0], steps[1], Apply(t, steps[0]).value);
      assert steps == [steps[0], steps[1]];
    }
  }

  /** The uninterrupted call does to the key and to the publications what the method says. */
  lemma AloneIsDispatch(s: State, i: Dispatcher, c: Calls)
    requires i !in s.phases
    ensures var t := Run(ALL_FAULTS, s, Alone(i, Locked(s), c));
            t.Some? && Dispatched(s, i, c, t.value)
  {
    AloneOpens(s, i, c);
    AloneCloses(s, i, c, Run(ALL_FAULTS, s, Opening(i, Locked(s), c)).value);
    RunAppend(ALL_FAULTS, s, Opening(i, Locked(s), c), Closing(i, Locked(s), c));
  }

  /** After a publication has failed and the lock was deleted, the next call sends the alert, whenever it comes;
      after one that has returned normally, no call within the TTL sends it. */
  lemma RetryAfterDispatch(s: State, i: Dispatcher, c: Calls, j: Dispatcher, wait: int)
    requires i !in s.phases && j !in s.phases && i != j && !Locked(s) && c.setting.Works? && wait >= 0
    ensures var t := Run(ALL_FAULTS, s, Alone(i, Locked(s), c));
            && t.Some?
            && var later := t.value.(now := t.value.now + wait);
               var ok := Calls(Works, Works, true, Works);
               var u := Run(ALL_FAULTS, later, Alone(j, Locked(later), ok));
               && u.Some?
               && (c.publish.Fails? && !c.del.Fails? ==>
                    u.value.published == s.published + [Publication(j, s.now + wait)])
               && (c.publish.Works? && c.logWorks && wait < TTL_MS ==>
                    u.value.published == s.published + [Publication(i, s.now)])
  {
    AloneIsDispatch(s, i, c);
    var t := Run(ALL_FAULTS, s, Alone(i, Locked(s), c)).value;
    AloneKeeps(s, i, c, j);
    AloneIsDispatch(t.(now := t.now + wait), j, Calls(Works, Works, true, Works));
  }

  /** One call touches neither the clock nor another dispatcher. */
  lemma AloneKeeps(s: State, i: Dispatcher, c: Calls, j: Dispatcher)
    requires i !in s.phases && j !in s.phases && i != j
    ensures var t := Run(ALL_FAULTS, s, Alone(i, Locked(s), c));
            t.Some? && t.value.now == s.now && j !in t.value.phases
  {
    AloneIsDispatch(s, i, c);
    RunLeaves(s, Alone(i, Locked(s), c), i, j);
  }

  lemma {:induction false} RunLeaves(s: State, steps: seq<Step>, i: Dispatcher, j: Dispatcher)
    requires Run(ALL_FAULTS, s, steps).Some? && i != j && j !in s.phases
    requires forall k :: 0 <= k < |steps| ==> !steps[k].Tick? && steps[k].who == i
    ensures Run(ALL_FAULTS, s, steps).value.now == s.now && j !in Run(ALL_FAULTS, s, steps).value.phases
    decreases |steps|
  {
    if steps != [] {
      assert !steps[0].Tick? && steps[0].who == i;
      RunLeaves(Apply(s, steps[0]).value, steps[1..], i, j);
    }
  }
}
