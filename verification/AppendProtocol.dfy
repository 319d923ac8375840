/** Many `append` calls against one events table. A transaction reads MAX(version) + 1, inserts under
    UNIQUE (aggregate_id, version), and commits or rolls back; failed attempts are retried by
    `executeWithRetry` inside the consumer's `retryWithBackoff`. Steps of different calls interleave
    in every order. */
module AppendProtocol {
  import opened Wrappers

  /** Calls and aggregates are named by numbers; only whether two names are equal matters. */
  type OpId = nat

  type Aggregate = nat

  datatype Row = Row(aggregate: Aggregate, version: nat, op: OpId)

  datatype Error = Conflict | Serialization | Other

  /** Where one call stands: before an attempt, after the statement's MAX was read, with an
      uncommitted row, or finished. */
  datatype Phase = Ready | HasRead(version: nat) | Holding(version: nat) | Done | Failed(error: Error)

  /** `outer` and `inner` are the two retry counters. The rest is history: how many rows the stream had
      when the call began, the versions lost to conflicts, and the number of other errors. */
  datatype Op = Op(aggregate: Aggregate, phase: Phase, outer: nat, inner: nat, start: nat, lost: seq<nat>, others: nat)

  datatype State = State(rows: seq<Row>, ops: map<OpId, Op>)

  const INNER_RETRIES: nat := 3

  const INIT: State := State([], map[])

  // ----- the table -----

  function Count(rows: seq<Row>, a: Aggregate): nat {
    if rows == [] then 0 else Count(rows[..|rows| - 1], a) + (if rows[|rows| - 1].aggregate == a then 1 else 0)
  }

  /** COALESCE(MAX(version), 0) over the rows of one aggregate. */
  function MaxVersion(rows: seq<Row>, a: Aggregate): nat {
    if rows == [] then 0
    else
      var before := MaxVersion(rows[..|rows| - 1], a);
      var last := rows[|rows| - 1];
      if last.aggregate == a && last.version > before then last.version else before
  }

  predicate HasVersion(rows: seq<Row>, a: Aggregate, v: nat) {
    exists i :: 0 <= i < |rows| && rows[i].aggregate == a && rows[i].version == v
  }

  /** The rows of one aggregate in commit order. */
  function Stream(rows: seq<Row>, a: Aggregate): (r: seq<Row>)
    ensures |r| == Count(rows, a)
  {
    if rows == [] then []
    else
      var last := rows[|rows| - 1];
      Stream(rows[..|rows| - 1], a) + (if last.aggregate == a then [last] else [])
  }

  function RowsOf(rows: seq<Row>, op: OpId): nat {
    if rows == [] then 0 else RowsOf(rows[..|rows| - 1], op) + (if rows[|rows| - 1].op == op then 1 else 0)
  }

  // ----- steps -----

  datatype Step =
    | Start(op: OpId, aggregate: Aggregate)
    | ReadMax(op: OpId)
    | Insert(op: OpId)
    | Commit(op: OpId)
    | Fail(op: OpId, error: Error)

  /** The two catch blocks: a serialization failure is retried at once up to three times; any other
      error, or one too many, goes to the consumer, which calls `append` again up to maxRetries times. */
  function AfterError(o: Op, e: Error, maxRetries: nat): Op {
    if e == Serialization && o.inner < INNER_RETRIES then o.(phase := Ready, inner := o.inner + 1)
    else if o.outer < maxRetries then o.(phase := Ready, outer := o.outer + 1, inner := 0)
    else o.(phase := Failed(e))
  }

  predicate Active(o: Op) {
    o.phase.Ready? || o.phase.HasRead? || o.phase.Holding?
  }

  /** Some other call has an uncommitted row with this key, so an insert of the key waits. */
  predicate Blocked(s: State, op: OpId, a: Aggregate, v: nat) {
    exists p :: p in s.ops && p != op && s.ops[p].aggregate == a && s.ops[p].phase == Holding(v)
  }

  /** None when the step cannot happen in this state. */
  function Apply(maxRetries: nat, s: State, step: Step): Option<State> {
    if step.Start? then
      if step.op in s.ops then None
      else Some(s.(ops := s.ops[step.op := Op(step.aggregate, Ready, 0, 0, Count(s.rows, step.aggregate), [], 0)]))
    else if step.op !in s.ops then None
    else
      var o := s.ops[step.op];
      match step
      case ReadMax(i) =>
        if o.phase != Ready then None
        else Some(s.(ops := s.ops[i := o.(phase := HasRead(MaxVersion(s.rows, o.aggregate) + 1))]))
      case Insert(i) =>
        if !o.phase.HasRead? || Blocked(s, i, o.aggregate, o.phase.version) then None
        else if HasVersion(s.rows, o.aggregate, o.phase.version) then
          Some(s.(ops := s.ops[i := AfterError(o.(lost := o.lost + [o.phase.version]), Conflict, maxRetries)]))
        else Some(s.(ops := s.ops[i := o.(phase := Holding(o.phase.version))]))
      case Commit(i) =>
        if !o.phase.Holding? then None
        else Some(State(s.rows + [Row(o.aggregate, o.phase.version, i)], s.ops[i := o.(phase := Done)]))
      case Fail(i, e) =>
        if !Active(o) || e == Conflict then None
        else Some(s.(ops := s.ops[i := AfterError(o.(others := o.others + 1), e, maxRetries)]))
      case _ => None
  }

  function Run(maxRetries: nat, s: State, steps: seq<Step>): Option<State>
    decreases |steps|
  {
    if steps == [] then Some(s)
    else
      var t :- Apply(maxRetries, s, steps[0]);
      Run(maxRetries, t, steps[1..])
  }

  // ----- facts about the table -----

  /** Every row carries the next version of its aggregate. */
  ghost predicate Dense(rows: seq<Row>) {
    forall k :: 0 <= k < |rows| ==> rows[k].version == Count(rows[..k], rows[k].aggregate) + 1
  }

  lemma DensePrefix(rows: seq<Row>)
    requires Dense(rows) && rows != []
    ensures Dense(rows[..|rows| - 1])
  {
    var p := rows[..|rows| - 1];
    forall k | 0 <= k < |p| ensures p[k].version == Count(p[..k], p[k].aggregate) + 1 {
      assert p[..k] == rows[..k];
    }
  }

  lemma HasVersionStep(p: seq<Row>, last: Row, a: Aggregate, v: nat)
    ensures HasVersion(p + [last], a, v) <==> HasVersion(p, a, v) || (last.aggregate == a && last.version == v)
  {
    var rows := p + [last];
    if HasVersion(p, a, v) {
      var i :| 0 <= i < |p| && p[i].aggregate == a && p[i].version == v;
      assert rows[i] == p[i];
    }
    if last.aggregate == a && last.version == v {
      assert rows[|p|] == last;
    }
    if HasVersion(rows, a, v) {
      var i :| 0 <= i < |rows| && rows[i].aggregate == a && rows[i].version == v;
      assert i < |p| ==> rows[i] == p[i];
    }
  }

  lemma {:induction false} DenseMax(rows: seq<Row>, a: Aggregate)
    requires Dense(rows)
    ensures MaxVersion(rows, a) == Count(rows, a)
  {
    if rows != [] {
      DensePrefix(rows);
      DenseMax(rows[..|rows| - 1], a);
    }
  }

  lemma {:induction false} DenseHas(rows: seq<Row>, a: Aggregate, v: nat)
    requires Dense(rows)
    ensures HasVersion(rows, a, v) <==> 1 <= v <= Count(rows, a)
  {
    if rows != [] {
      var p, last := rows[..|rows| - 1], rows[|rows| - 1];
      DensePrefix(rows);
      DenseHas(p, a, v);
      assert rows == p + [last];
      HasVersionStep(p, last, a, v);
      assert last.version == Count(p, last.aggregate) + 1;
    }
  }

  lemma {:induction false} DenseStream(rows: seq<Row>, a: Aggregate, i: nat)
    requires Dense(rows) && i < Count(rows, a)
    ensures Stream(rows, a)[i].version == i + 1 && Stream(rows, a)[i].aggregate == a
  {
    var p, last := rows[..|rows| - 1], rows[|rows| - 1];
    DensePrefix(rows);
    assert last.version == Count(p, last.aggregate) + 1;
    if i < Count(p, a) {
      DenseStream(p, a, i);
    }
  }

  lemma AddRow(rows: seq<Row>, r: Row, a: Aggregate, op: OpId)
    ensures Count(rows + [r], a) == Count(rows, a) + (if r.aggregate == a then 1 else 0)
    ensures Stream(rows + [r], a) == Stream(rows, a) + (if r.aggregate == a then [r] else [])
    ensures RowsOf(rows + [r], op) == RowsOf(rows, op) + (if r.op == op then 1 else 0)
  {
  }

  lemma DenseAdd(rows: seq<Row>, r: Row)
    requires Dense(rows) && r.version == Count(rows, r.aggregate) + 1
    ensures Dense(rows + [r])
  {
    var t := rows + [r];
    forall k | 0 <= k < |t| ensures t[k].version == Count(t[..k], t[k].aggregate) + 1 {
      assert t[..k] == rows[..k];
      assert rows[..|rows|] == rows;
    }
  }

  // ----- the invariant -----

  ghost predicate Increasing(xs: seq<nat>) {
    forall i, j :: 0 <= i < j < |xs| ==> xs[i] < xs[j]
  }

  /** The history of lost races: increasing versions, all committed after the call began. */
  ghost predicate LostOk(rows: seq<Row>, o: Op) {
    && o.start <= Count(rows, o.aggregate)
    && Increasing(o.lost)
    && forall i :: 0 <= i < |o.lost| ==> o.start < o.lost[i] <= Count(rows, o.aggregate)
  }

  ghost predicate PhaseOk(rows: seq<Row>, o: Op) {
    match o.phase
    case HasRead(v) =>
      v <= Count(rows, o.aggregate) + 1 && o.start < v && forall i :: 0 <= i < |o.lost| ==> o.lost[i] < v
    case Holding(v) => v == Count(rows, o.aggregate) + 1
    case Done => |o.lost| < Count(rows, o.aggregate) - o.start
    case _ => true
  }

  /** While no other error occurred, the outer counter counts the lost races. */
  predicate RetriesOk(o: Op, maxRetries: nat) {
    && o.outer <= maxRetries && o.inner <= INNER_RETRIES
    && (o.others == 0 ==> o.inner == 0 && |o.lost| == o.outer + (if o.phase.Failed? then 1 else 0))
    && (o.others == 0 && o.phase.Failed? ==> o.outer == maxRetries && o.phase.error == Conflict)
  }

  ghost predicate OpOk(rows: seq<Row>, i: OpId, o: Op, maxRetries: nat) {
    && LostOk(rows, o)
    && PhaseOk(rows, o)
    && RetriesOk(o, maxRetries)
    && RowsOf(rows, i) == (if o.phase == Done then 1 else 0)
  }

  /** At most one uncommitted row per aggregate. */
  ghost predicate HoldersApart(s: State) {
    forall i, j :: i in s.ops && j in s.ops && i != j && s.ops[i].phase.Holding? && s.ops[j].phase.Holding?
      ==> s.ops[i].aggregate != s.ops[j].aggregate
  }

  /** Every row was added by a known call, to that call's aggregate. */
  ghost predicate RowsKnown(s: State) {
    forall k :: 0 <= k < |s.rows| ==> s.rows[k].op in s.ops && s.rows[k].aggregate == s.ops[s.rows[k].op].aggregate
  }

  ghost predicate Inv(maxRetries: nat, s: State) {
    && Dense(s.rows)
    && (forall i :: i in s.ops ==> OpOk(s.rows, i, s.ops[i], maxRetries))
    && (forall i: OpId :: i !in s.ops ==> RowsOf(s.rows, i) == 0)
    && HoldersApart(s)
    && RowsKnown(s)
  }

  lemma AfterErrorOk(rows: seq<Row>, i: OpId, o: Op, e: Error, maxRetries: nat)
    requires LostOk(rows, o) && o.outer <= maxRetries && o.inner <= INNER_RETRIES && RowsOf(rows, i) == 0
    requires o.others == 0 ==> o.inner == 0 && e == Conflict && |o.lost| == o.outer + 1
    ensures OpOk(rows, i, AfterError(o, e, maxRetries), maxRetries)
    ensures AfterError(o, e, maxRetries).aggregate == o.aggregate && !AfterError(o, e, maxRetries).phase.Holding?
  {
  }

  /** From s to t only call i changed, and no row. */
  ghost predicate OnlyChanges(s: State, t: State, i: OpId) {
    && t.rows == s.rows && i in s.ops && i in t.ops && t.ops[i].aggregate == s.ops[i].aggregate
    && forall j: OpId :: j != i ==> (j in t.ops <==> j in s.ops) && (j in s.ops ==> t.ops[j] == s.ops[j])
  }

  lemma OneOpChanges(maxRetries: nat, s: State, t: State, i: OpId)
    requires Inv(maxRetries, s) && OnlyChanges(s, t, i) && OpOk(s.rows, i, t.ops[i], maxRetries)
    requires t.ops[i].phase.Holding? ==> !Blocked(s, i, t.ops[i].aggregate, t.ops[i].phase.version)
    ensures Inv(maxRetries, t)
  {
    forall j | j in t.ops ensures OpOk(t.rows, j, t.ops[j], maxRetries) {
      assert j in s.ops;
    }
    if t.ops[i].phase.Holding? {
      forall j | j in t.ops && j != i && t.ops[j].phase.Holding? ensures t.ops[j].aggregate != t.ops[i].aggregate {
        assert OpOk(s.rows, j, s.ops[j], maxRetries);
      }
    }
  }

  /** Reading, inserting and failing change one call and no row. */
  lemma OpStep(maxRetries: nat, s: State, step: Step)
    requires Apply(maxRetries, s, step).Some? && (step.ReadMax? || step.Insert? || step.Fail?)
    ensures OnlyChanges(s, Apply(maxRetries, s, step).value, step.op)
  {
  }

  lemma InsertOk(maxRetries: nat, s: State, i: OpId)
    requires Dense(s.rows) && i in s.ops && OpOk(s.rows, i, s.ops[i], maxRetries)
&& Apply(maxRetries, s, Insert(i)).Some?
    ensures var o := Apply(maxRetries, s, Insert(i)).value.ops[i];
            && OpOk(s.rows, i, o, maxRetries)
            && (o.phase.Holding? ==> !Blocked(s, i, o.aggregate, o.phase.version))
  {
    var o := s.ops[i];
    DenseHas(s.rows, o.aggregate, o.phase.version);
    if HasVersion(s.rows, o.aggregate, o.phase.version) {
      AfterErrorOk(s.rows, i, o.(lost := o.lost + [o.phase.version]), Conflict, maxRetries);
    }
  }

  lemma InsertKeeps(maxRetries: nat, s: State, i: OpId)
    requires Inv(maxRetries, s) && Apply(maxRetries, s, Insert(i)).Some?
    ensures Inv(maxRetries, Apply(maxRetries, s, Insert(i)).value)
  {
    OpStep(maxRetries, s, Insert(i));
    InsertOk(maxRetries, s, i);
    OneOpChanges(maxRetries, s, Apply(maxRetries, s, Insert(i)).value, i);
  }

  /** What a committed row does to the calls. */
  lemma CommitOps(maxRetries: nat, s: State, i: OpId, j: OpId)
    requires Inv(maxRetries, s) && Apply(maxRetries, s, Commit(i)).Some? && j in s.ops
    ensures var t := Apply(maxRetries, s, Commit(i)).value;
            OpOk(t.rows, j, t.ops[j], maxRetries)
  {
    var o := s.ops[i];
    var r := Row(o.aggregate, o.phase.version, i);
    assert OpOk(s.rows, i, o, maxRetries) && OpOk(s.rows, j, s.ops[j], maxRetries);
    AddRow(s.rows, r, s.ops[j].aggregate, j);
    IncreasingBound(o.lost, o.start, Count(s.rows, o.aggregate));
  }

  lemma CommitKeeps(maxRetries: nat, s: State, i: OpId)
    requires Inv(maxRetries, s) && Apply(maxRetries, s, Commit(i)).Some?
    ensures Inv(maxRetries, Apply(maxRetries, s, Commit(i)).value)
  {
    var o := s.ops[i];
    var r := Row(o.aggregate, o.phase.version, i);
    var t := Apply(maxRetries, s, Commit(i)).value;
    assert OpOk(s.rows, i, o, maxRetries);
    DenseAdd(s.rows, r);
    forall j | j in t.ops ensures OpOk(t.rows, j, t.ops[j], maxRetries) {
      CommitOps(maxRetries, s, i, j);
    }
    forall j: OpId | j !in t.ops ensures RowsOf(t.rows, j) == 0 {
      AddRow(s.rows, r, o.aggregate, j);
    }
    CommitKnown(s, i);
  }

  lemma CommitKnown(s: State, i: OpId)
    requires RowsKnown(s) && HoldersApart(s) && i in s.ops && s.ops[i].phase.Holding?
    ensures var o := s.ops[i];
            var t := State(s.rows + [Row(o.aggregate, o.phase.version, i)], s.ops[i := o.(phase := Done)]);
            RowsKnown(t) && HoldersApart(t)
  {
  }

  lemma ReadMaxOk(maxRetries: nat, s: State, i: OpId)
    requires Dense(s.rows) && i in s.ops && OpOk(s.rows, i, s.ops[i], maxRetries)
&& Apply(maxRetries, s, ReadMax(i)).Some?
    ensures OpOk(s.rows, i, Apply(maxRetries, s, ReadMax(i)).value.ops[i], maxRetries)
    ensures !Apply(maxRetries, s, ReadMax(i)).value.ops[i].phase.Holding?
  {
    DenseMax(s.rows, s.ops[i].aggregate);
  }

  lemma ReadMaxKeeps(maxRetries: nat, s: State, i: OpId)
    requires Inv(maxRetries, s) && Apply(maxRetries, s, ReadMax(i)).Some?
    ensures Inv(maxRetries, Apply(maxRetries, s, ReadMax(i)).value)
  {
    OpStep(maxRetries, s, ReadMax(i));
    ReadMaxOk(maxRetries, s, i);
    OneOpChanges(maxRetries, s, Apply(maxRetries, s, ReadMax(i)).value, i);
  }

  lemma FailOk(maxRetries: nat, s: State, i: OpId, e: Error)
    requires i in s.ops && OpOk(s.rows, i, s.ops[i], maxRetries) && Apply(maxRetries, s, Fail(i, e)).Some?
    ensures OpOk(s.rows, i, Apply(maxRetries, s, Fail(i, e)).value.ops[i], maxRetries)
    ensures !Apply(maxRetries, s, Fail(i, e)).value.ops[i].phase.Holding?
  {
    var o := s.ops[i];
    AfterErrorOk(s.rows, i, o.(others := o.others + 1), e, maxRetries);
  }

  lemma FailKeeps(maxRetries: nat, s: State, i: OpId, e: Error)
    requires Inv(maxRetries, s) && Apply(maxRetries, s, Fail(i, e)).Some?
    ensures Inv(maxRetries, Apply(maxRetries, s, Fail(i, e)).value)
  {
    OpStep(maxRetries, s, Fail(i, e));
    FailOk(maxRetries, s, i, e);
    OneOpChanges(maxRetries, s, Apply(maxRetries, s, Fail(i, e)).value, i);
  }

  lemma StepKeeps(maxRetries: nat, s: State, step: Step)
    requires Inv(maxRetries, s) && Apply(maxRetries, s, step).Some?
    ensures Inv(maxRetries, Apply(maxRetries, s, step).value)
  {
    match step
    case Start(i, a) =>
    case ReadMax(i) => ReadMaxKeeps(maxRetries, s, i);
    case Insert(i) => InsertKeeps(maxRetries, s, i);
    case Commit(i) => CommitKeeps(maxRetries, s, i);
    case Fail(i, e) => FailKeeps(maxRetries, s, i, e);
  }

  lemma {:induction false} RunKeeps(maxRetries: nat, s: State, steps: seq<Step>)
    requires Inv(maxRetries, s) && Run(maxRetries, s, steps).Some?
    ensures Inv(maxRetries, Run(maxRetries, s, steps).value)
    decreases |steps|
  {
    if steps != [] {
      StepKeeps(maxRetries, s, steps[0]);
      RunKeeps(maxRetries, Apply(maxRetries, s, steps[0]).value, steps[1..]);
    }
  }

  // ----- main results -----

  /** In every interleaving the versions of each aggregate are exactly 1..n: the i-th committed row has
      version i, so `ORDER BY version` is commit order, and no version is missing or taken twice. */
  lemma VersionsAreDense(maxRetries: nat, steps: seq<Step>, a: Aggregate)
    requires Run(maxRetries, INIT, steps).Some?
    ensures var rows := Run(maxRetries, INIT, steps).value.rows;
            && (forall i :: 0 <= i < |Stream(rows, a)| ==> Stream(rows, a)[i].version == i + 1)
            && (forall v: nat :: HasVersion(rows, a, v) <==> 1 <= v <= |Stream(rows, a)|)
            && (forall i, j :: 0 <= i < j < |rows| && rows[i].aggregate == rows[j].aggregate ==>
                 rows[i].version < rows[j].version)
  {
    RunKeeps(maxRetries, INIT, steps);
    var rows := Run(maxRetries, INIT, steps).value.rows;
    forall i | 0 <= i < |Stream(rows, a)| ensures Stream(rows, a)[i].version == i + 1 {
      DenseStream(rows, a, i);
    }
    forall v: nat ensures HasVersion(rows, a, v) <==> 1 <= v <= |Stream(rows, a)| {
      DenseHas(rows, a, v);
    }
    forall i, j | 0 <= i < j < |rows| && rows[i].aggregate == rows[j].aggregate
      ensures rows[i].version < rows[j].version
    {
      CountGrows(rows, i, j, rows[j].aggregate);
    }
  }

  lemma {:induction false} CountGrows(rows: seq<Row>, i: nat, j: nat, a: Aggregate)
    requires i < j <= |rows| && rows[i].aggregate == a
    ensures Count(rows[..i], a) < Count(rows[..j], a)
    decreases j
  {
    assert rows[..j][..j - 1] == rows[..j - 1];
    if i < j - 1 {
      CountGrows(rows, i, j - 1, a);
    }
  }

  /** A later load extends every earlier load as a prefix. */
  lemma {:induction false} StreamsOnlyGrow(maxRetries: nat, s: State, steps: seq<Step>, a: Aggregate)
    requires Run(maxRetries, s, steps).Some?
    ensures Stream(s.rows, a) <= Stream(Run(maxRetries, s, steps).value.rows, a)
    decreases |steps|
  {
    if steps != [] {
      var t := Apply(maxRetries, s, steps[0]).value;
      if steps[0].Commit? {
        AddRow(s.rows, t.rows[|t.rows| - 1], a, 0);
      }
      StreamsOnlyGrow(maxRetries, t, steps[1..], a);
    }
  }

  /** An append that has returned success added exactly one row, to its own aggregate; one that has
      not added none. */
  lemma SuccessIsOneRow(maxRetries: nat, steps: seq<Step>, i: OpId)
    requires Run(maxRetries, INIT, steps).Some? && i in Run(maxRetries, INIT, steps).value.ops
    ensures var s := Run(maxRetries, INIT, steps).value;
            && RowsOf(s.rows, i) == (if s.ops[i].phase == Done then 1 else 0)
            && forall k :: 0 <= k < |s.rows| && s.rows[k].op == i ==> s.rows[k].aggregate == s.ops[i].aggregate
  {
    RunKeeps(maxRetries, INIT, steps);
    var s := Run(maxRetries, INIT, steps).value;
    assert OpOk(s.rows, i, s.ops[i], maxRetries);
  }

  /** Rows of a call that works on aggregate b. */
  lemma {:induction false} StreamRowsOf(rows: seq<Row>, i: OpId, a: Aggregate, b: Aggregate)
    requires forall k :: 0 <= k < |rows| && rows[k].op == i ==> rows[k].aggregate == b
    ensures RowsOf(Stream(rows, a), i) == if a == b then RowsOf(rows, i) else 0
  {
    if rows != [] {
      var p, last := rows[..|rows| - 1], rows[|rows| - 1];
      StreamRowsOf(p, i, a, b);
      if last.aggregate == a {
        assert (Stream(p, a) + [last])[..|Stream(p, a)|] == Stream(p, a);
      } else {
        assert Stream(rows, a) == Stream(p, a);
      }
    }
  }

  /** Call i has returned success on aggregate a. */
  predicate Finished(s: State, i: OpId, a: Aggregate) {
    i in s.ops && s.ops[i].phase == Done && s.ops[i].aggregate == a
  }

  /** A stream names exactly the calls that have returned success on its aggregate, each once. */
  lemma StreamNamesFinishedCalls(maxRetries: nat, steps: seq<Step>, a: Aggregate, i: OpId)
    requires Run(maxRetries, INIT, steps).Some?
    ensures var s := Run(maxRetries, INIT, steps).value;
            RowsOf(Stream(s.rows, a), i) == if Finished(s, i, a) then 1 else 0
  {
    RunKeeps(maxRetries, INIT, steps);
    var s := Run(maxRetries, INIT, steps).value;
    if i in s.ops {
      SuccessIsOneRow(maxRetries, steps, i);
      StreamRowsOf(s.rows, i, a, s.ops[i].aggregate);
    } else {
      StreamRowsOf(s.rows, i, a, a);
    }
  }

  /** A call has a row exactly when some row names it. */
  lemma {:induction false} RowsOfPositive(rows: seq<Row>, i: OpId)
    ensures RowsOf(rows, i) > 0 <==> exists k :: 0 <= k < |rows| && rows[k].op == i
  {
    if rows != [] {
      var p := rows[..|rows| - 1];
      RowsOfPositive(p, i);
      if rows[|rows| - 1].op != i && RowsOf(p, i) > 0 {
        var k :| 0 <= k < |p| && p[k].op == i;
        assert rows[k].op == i;
      }
      if k :| 0 <= k < |rows| && rows[k].op == i {
        assert k < |p| ==> p[k].op == i;
      }
    }
  }

  lemma {:induction false} NoRowOf(rows: seq<Row>, op: OpId, a: Aggregate, k: nat)
    requires RowsOf(rows, op) == 0 && k < |Stream(rows, a)|
    ensures Stream(rows, a)[k].op != op
  {
    if k < |Stream(rows[..|rows| - 1], a)| {
      NoRowOf(rows[..|rows| - 1], op, a, k);
    }
  }

  /** Call i's n-th conflict: the row with that version was committed after the call began, by another call. */
  predicate LostRace(s: State, i: OpId, n: nat)
    requires i in s.ops && n < |s.ops[i].lost|
  {
    var o := s.ops[i];
    var stream := Stream(s.rows, o.aggregate);
    && o.start <= o.lost[n] - 1 < |stream|
    && stream[o.lost[n] - 1].version == o.lost[n]
    && stream[o.lost[n] - 1].op != i
  }

  lemma RaceWasLost(maxRetries: nat, s: State, i: OpId, n: nat)
    requires Inv(maxRetries, s) && i in s.ops && s.ops[i].phase != Done && n < |s.ops[i].lost|
    ensures LostRace(s, i, n)
  {
    var o := s.ops[i];
    assert OpOk(s.rows, i, o, maxRetries);
    DenseStream(s.rows, o.aggregate, o.lost[n] - 1);
    NoRowOf(s.rows, i, o.aggregate, o.lost[n] - 1);
  }

  /** Every conflict of call i so far was such a lost race. */
  ghost predicate AllRacesLost(s: State, i: OpId) {
    i in s.ops ==> forall n :: 0 <= n < |s.ops[i].lost| ==> LostRace(s, i, n)
  }

  /** Streams only grow, so what was lost stays lost. */
  lemma RaceStaysLost(s: State, t: State, i: OpId, n: nat)
    requires i in s.ops && i in t.ops && n < |s.ops[i].lost| && LostRace(s, i, n)
    requires t.ops[i].lost == s.ops[i].lost && t.ops[i].start == s.ops[i].start
    requires t.ops[i].aggregate == s.ops[i].aggregate
    requires Stream(s.rows, s.ops[i].aggregate) <= Stream(t.rows, s.ops[i].aggregate)
    ensures LostRace(t, i, n)
  {
  }

  /** What a step that leaves call i finished does to its history. */
  lemma FinishedCall(maxRetries: nat, s: State, step: Step, i: OpId)
    requires Apply(maxRetries, s, step).Some?
    requires var t := Apply(maxRetries, s, step).value; i in t.ops && t.ops[i].phase == Done
    ensures var t := Apply(maxRetries, s, step).value;
            && i in s.ops
            && t.ops[i].lost == s.ops[i].lost && t.ops[i].start == s.ops[i].start
            && t.ops[i].aggregate == s.ops[i].aggregate
            && Stream(s.rows, s.ops[i].aggregate) <= Stream(t.rows, s.ops[i].aggregate)
  {
    StreamsOnlyGrow(maxRetries, s, [step], Apply(maxRetries, s, step).value.ops[i].aggregate);
    assert [step][1..] == [];
  }

  lemma RacesStayLost(maxRetries: nat, s: State, step: Step, i: OpId)
    requires Inv(maxRetries, s) && Apply(maxRetries, s, step).Some? && AllRacesLost(s, i)
    ensures AllRacesLost(Apply(maxRetries, s, step).value, i)
  {
    var t := Apply(maxRetries, s, step).value;
    if i in t.ops {
      forall n | 0 <= n < |t.ops[i].lost| ensures LostRace(t, i, n) {
        if t.ops[i].phase == Done {
          FinishedCall(maxRetries, s, step, i);
          RaceStaysLost(s, t, i, n);
        } else {
          StepKeeps(maxRetries, s, step);
          RaceWasLost(maxRetries, t, i, n);
        }
      }
    }
  }

  lemma {:induction false} RunKeepsRaces(maxRetries: nat, s: State, steps: seq<Step>, i: OpId)
    requires Inv(maxRetries, s) && AllRacesLost(s, i) && Run(maxRetries, s, steps).Some?
    ensures AllRacesLost(Run(maxRetries, s, steps).value, i)
    decreases |steps|
  {
    if steps != [] {
      RacesStayLost(maxRetries, s, steps[0], i);
      StepKeeps(maxRetries, s, steps[0]);
      RunKeepsRaces(maxRetries, Apply(maxRetries, s, steps[0]).value, steps[1..], i);
    }
  }

  /** Commits to call i's aggregate by other calls since it began. */
  function ForeignCommits(s: State, i: OpId): int
    requires i in s.ops
  {
    var o := s.ops[i];
    Count(s.rows, o.aggregate) - o.start - (if o.phase == Done then 1 else 0)
  }

  lemma {:induction false} StartStays(maxRetries: nat, s: State, steps: seq<Step>, i: OpId)
    requires i in s.ops && Run(maxRetries, s, steps).Some?
    ensures var t := Run(maxRetries, s, steps).value;
            i in t.ops && t.ops[i].start == s.ops[i].start && t.ops[i].aggregate == s.ops[i].aggregate
    decreases |steps|
  {
    if steps != [] {
      StartStays(maxRetries, Apply(maxRetries, s, steps[0]).value, steps[1..], i);
    }
  }

  /** For ever after, `start` is the length that the call's stream had when the call began. */
  lemma StartIsStreamLength(maxRetries: nat, s: State, i: OpId, a: Aggregate, rest: seq<Step>)
    requires Apply(maxRetries, s, Start(i, a)).Some?
    requires Run(maxRetries, Apply(maxRetries, s, Start(i, a)).value, rest).Some?
    ensures var t := Run(maxRetries, Apply(maxRetries, s, Start(i, a)).value, rest).value;
            i in t.ops && t.ops[i].start == |Stream(s.rows, a)| && t.ops[i].aggregate == a
  {
    StartStays(maxRetries, Apply(maxRetries, s, Start(i, a)).value, rest, i);
  }

  /** Every attempt lost to a version conflict was lost to its own foreign commit, whether the call is still
      under way, has succeeded or has failed: the lost versions are all different, and the row with that
      version was committed after this call began, by another call. */
  lemma ConflictsMapToForeignCommits(maxRetries: nat, steps: seq<Step>, i: OpId)
    requires Run(maxRetries, INIT, steps).Some? && i in Run(maxRetries, INIT, steps).value.ops
    ensures var s := Run(maxRetries, INIT, steps).value;
            && Increasing(s.ops[i].lost)
            && (forall n :: 0 <= n < |s.ops[i].lost| ==> LostRace(s, i, n))
            && |s.ops[i].lost| <= ForeignCommits(s, i)
  {
    RunKeeps(maxRetries, INIT, steps);
    RunKeepsRaces(maxRetries, INIT, steps, i);
    var s := Run(maxRetries, INIT, steps).value;
    var o := s.ops[i];
    assert OpOk(s.rows, i, o, maxRetries);
    if o.phase != Done {
      IncreasingBound(o.lost, o.start, Count(s.rows, o.aggregate));
    }
  }

  lemma {:induction false} IncreasingBound(xs: seq<nat>, lo: nat, hi: nat)
    requires Increasing(xs) && lo <= hi
    requires forall i :: 0 <= i < |xs| ==> lo < xs[i] <= hi
    ensures |xs| <= hi - lo
  {
    if xs != [] {
      var last := xs[|xs| - 1];
      IncreasingBound(xs[..|xs| - 1], lo, last - 1);
    }
  }

  // ----- progress -----

  /** Steps of call i after its start. */
  function OwnSteps(steps: seq<Step>, i: OpId): nat {
    if steps == [] then 0
    else (if steps[0].op == i && !steps[0].Start? then 1 else 0) + OwnSteps(steps[1..], i)
  }

  /** Steps of the present attempt. */
  function Rank(p: Phase): nat {
    match p
    case HasRead(_) => 1
    case Holding(_) => 2
    case Done => 3
    case _ => 0
  }

  /** Two steps for every lost race, and those of the present attempt. */
  function Work(s: State, i: OpId): nat {
    if i in s.ops then 2 * |s.ops[i].lost| + Rank(s.ops[i].phase) else 0
  }

  function Others(s: State, i: OpId): nat {
    if i in s.ops then s.ops[i].others else 0
  }

  /** The steps a call can still make: three for each attempt that its retry counters leave. */
  function Budget(maxRetries: nat, s: State, i: OpId): int {
    if i !in s.ops then 12 * (maxRetries + 1)
    else
      var o := s.ops[i];
      if Active(o) then 12 * (maxRetries - o.outer) + 3 * (INNER_RETRIES - o.inner) + 3 - Rank(o.phase) else 0
  }

  lemma StepSpends(maxRetries: nat, s: State, step: Step, i: OpId)
    requires i in s.ops ==> s.ops[i].outer <= maxRetries && s.ops[i].inner <= INNER_RETRIES
    requires Apply(maxRetries, s, step).Some?
    ensures var t := Apply(maxRetries, s, step).value;
            var own := if step.op == i && !step.Start? then 1 else 0;
            && own + Budget(maxRetries, t, i) <= Budget(maxRetries, s, i)
            && Others(s, i) <= Others(t, i)
            && (Others(t, i) == 0 ==> Work(t, i) == Work(s, i) + own)
  {
    if step.op != i {
      assert i in Apply(maxRetries, s, step).value.ops <==> i in s.ops;
      assert i in s.ops ==> Apply(maxRetries, s, step).value.ops[i] == s.ops[i];
    }
  }

  lemma CountersBounded(maxRetries: nat, s: State, i: OpId)
    requires Inv(maxRetries, s) && i in s.ops
    ensures s.ops[i].outer <= maxRetries && s.ops[i].inner <= INNER_RETRIES
  {
    assert OpOk(s.rows, i, s.ops[i], maxRetries);
  }

  lemma {:induction false} RunSpends(maxRetries: nat, s: State, steps: seq<Step>, i: OpId)
    requires Inv(maxRetries, s) && Run(maxRetries, s, steps).Some?
    ensures var t := Run(maxRetries, s, steps).value;
            && OwnSteps(steps, i) + Budget(maxRetries, t, i) <= Budget(maxRetries, s, i)
            && Others(s, i) <= Others(t, i)
            && (Others(t, i) == 0 ==> Work(t, i) == Work(s, i) + OwnSteps(steps, i))
    decreases |steps|
  {
    if steps != [] {
      if i in s.ops {
        CountersBounded(maxRetries, s, i);
      }
      StepSpends(maxRetries, s, steps[0], i);
      StepKeeps(maxRetries, s, steps[0]);
      RunSpends(maxRetries, Apply(maxRetries, s, steps[0]).value, steps[1..], i);
    }
  }

  /** Whatever errors it meets, a call makes at most 12 * (maxRetries + 1) steps in any run, and is finished
      when it has made them. With no error other than version conflicts it makes two for every lost race and at
      most three more; it fails only after maxRetries + 1 foreign commits, and with at most maxRetries
      foreign commits it has succeeded once it has made 2 * foreign + 3 steps. */
  lemma AppendSucceedsWithinItsRetries(maxRetries: nat, steps: seq<Step>, i: OpId)
    requires Run(maxRetries, INIT, steps).Some? && i in Run(maxRetries, INIT, steps).value.ops
    ensures var s := Run(maxRetries, INIT, steps).value;
            var o := s.ops[i];
            var own := OwnSteps(steps, i);
            var foreign := ForeignCommits(s, i);
            && own <= 12 * (maxRetries + 1)
            && (own == 12 * (maxRetries + 1) ==> !Active(o))
            && (o.others == 0 ==>
                  && own == 2 * |o.lost| + Rank(o.phase) <= 2 * maxRetries + 3
                  && own <= 2 * foreign + 3
                  && (o.phase.Failed? ==> foreign >= maxRetries + 1)
                  && (foreign <= maxRetries ==> (own == 2 * foreign + 3 || !Active(o) ==> o.phase == Done))
                  && (own == 2 * maxRetries + 3 ==> o.phase == Done))
  {
    RunKeeps(maxRetries, INIT, steps);
    RunSpends(maxRetries, INIT, steps, i);
    ConflictsMapToForeignCommits(maxRetries, steps, i);
    var s := Run(maxRetries, INIT, steps).value;
    assert OpOk(s.rows, i, s.ops[i], maxRetries);
  }

  function NextStep(s: State, i: OpId): Step
    requires i in s.ops && Active(s.ops[i])
  {
    match s.ops[i].phase
    case Ready => ReadMax(i)
    case HasRead(_) => Insert(i)
    case _ => Commit(i)
  }

  /** Call p holds the version that call i wants to insert; when p commits, nobody else does. */
  lemma CommitUnblocks(maxRetries: nat, s: State, i: OpId, p: OpId)
    requires HoldersApart(s) && i in s.ops && s.ops[i].phase.HasRead? && p in s.ops && p != i
    requires s.ops[p].aggregate == s.ops[i].aggregate && s.ops[p].phase.Holding?
    ensures Apply(maxRetries, s, Commit(p)).Some?
    ensures var t := Apply(maxRetries, s, Commit(p)).value;
            i in t.ops && t.ops[i] == s.ops[i] && Apply(maxRetries, t, Insert(i)).Some?
  {
    var t := Apply(maxRetries, s, Commit(p)).value;
    forall q | q in t.ops && q != i && t.ops[q].aggregate == s.ops[i].aggregate ensures !t.ops[q].phase.Holding? {
      assert q in s.ops && (q != p ==> t.ops[q] == s.ops[q]);
    }
  }

  /** An unfinished call can take its next step, or can take it as soon as one certain other call commits. */
  lemma BlockedUntilOneCommit(maxRetries: nat, s: State, i: OpId) returns (wait: seq<Step>, t: State)
    requires Inv(maxRetries, s) && i in s.ops && Active(s.ops[i])
    ensures |wait| <= 1 && (Apply(maxRetries, s, NextStep(s, i)).Some? ==> wait == [])
    ensures Run(maxRetries, s, wait) == Some(t) && Inv(maxRetries, t)
    ensures i in t.ops && t.ops[i] == s.ops[i] && Apply(maxRetries, t, NextStep(s, i)).Some?
  {
    wait, t := [], s;
    if Apply(maxRetries, s, NextStep(s, i)).None? {
      var o := s.ops[i];
      var p :| p in s.ops && p != i && s.ops[p].aggregate == o.aggregate && s.ops[p].phase == Holding(o.phase.version);
      CommitUnblocks(maxRetries, s, i, p);
      StepKeeps(maxRetries, s, Commit(p));
      wait, t := [Commit(p)], Apply(maxRetries, s, Commit(p)).value;
      assert wait[1..] == [];
    }
  }

  lemma {:induction false} RunAppend(maxRetries: nat, s: State, a: seq<Step>, b: seq<Step>)
    requires Run(maxRetries, s, a).Some?
    ensures Run(maxRetries, s, a + b) == Run(maxRetries, Run(maxRetries, s, a).value, b)
    decreases |a|
  {
    if a == [] {
      assert a + b == b;
    } else {
      assert (a + b)[1..] == a[1..] + b;
      RunAppend(maxRetries, Apply(maxRetries, s, a[0]).value, a[1..], b);
    }
  }

  lemma NextStepSpends(maxRetries: nat, s: State, i: OpId)
    requires i in s.ops && Active(s.ops[i]) && s.ops[i].outer <= maxRetries && s.ops[i].inner <= INNER_RETRIES
    requires Apply(maxRetries, s, NextStep(s, i)).Some?
    ensures var t := Apply(maxRetries, s, NextStep(s, i)).value;
            i in t.ops && t.ops[i].others == s.ops[i].others && Budget(maxRetries, t, i) < Budget(maxRetries, s, i)
  {
    StepSpends(maxRetries, s, NextStep(s, i), i);
  }

  lemma RunThen(maxRetries: nat, s: State, a: seq<Step>, t: State, step: Step, u: State)
    requires Run(maxRetries, s, a) == Some(t) && Apply(maxRetries, t, step) == Some(u)
    ensures Run(maxRetries, s, a + [step]) == Some(u)
  {
    RunAppend(maxRetries, s, a, [step]);
    assert [step][1..] == [];
  }

  /** One own step of call i, after at most one commit of another call. */
  lemma MoveOnce(maxRetries: nat, s: State, i: OpId) returns (steps: seq<Step>, t: State)
    requires Inv(maxRetries, s) && i in s.ops && Active(s.ops[i])
    ensures |steps| <= 2 && Run(maxRetries, s, steps) == Some(t) && Inv(maxRetries, t)
    ensures i in t.ops && t.ops[i].others == s.ops[i].others
    ensures Budget(maxRetries, t, i) < Budget(maxRetries, s, i)
  {
    var wait, u := BlockedUntilOneCommit(maxRetries, s, i);
    var step := NextStep(s, i);
    CountersBounded(maxRetries, s, i);
    NextStepSpends(maxRetries, u, i);
    StepKeeps(maxRetries, u, step);
    t := Apply(maxRetries, u, step).value;
    steps := wait + [step];
    RunThen(maxRetries, s, wait, u, step, t);
  }

  /** No deadlock: from every reachable state an unfinished call can be brought to its end by its own steps
      and at most one commit of another call before each of them, without any error but conflicts. */
  lemma {:induction false} CanBeFinished(maxRetries: nat, s: State, i: OpId) returns (more: seq<Step>)
    requires Inv(maxRetries, s) && i in s.ops
    ensures Run(maxRetries, s, more).Some?
    ensures var t := Run(maxRetries, s, more).value;
            i in t.ops && !Active(t.ops[i]) && t.ops[i].others == s.ops[i].others
    ensures |more| <= 2 * Budget(maxRetries, s, i)
    decreases Budget(maxRetries, s, i)
  {
    more := [];
    CountersBounded(maxRetries, s, i);
    if Active(s.ops[i]) {
      var first, t := MoveOnce(maxRetries, s, i);
      var rest := CanBeFinished(maxRetries, t, i);
      RunAppend(maxRetries, s, first, rest);
      more := first + rest;
    }
  }

  /** The ways in which a run can go on so that call i ends without an error other than conflicts. */
  predicate Finishes(maxRetries: nat, s: State, more: seq<Step>, i: OpId)
    requires i in s.ops
  {
    Run(maxRetries, s, more).Some? &&
    var t := Run(maxRetries, s, more).value;
    i in t.ops && !Active(t.ops[i]) && t.ops[i].others == s.ops[i].others
  }

  /** In every reachable state each call can be brought to its end, with no error but conflicts, in a bounded
      number of steps. */
  lemma UnfinishedAppendCanFinish(maxRetries: nat, steps: seq<Step>, i: OpId)
    requires Run(maxRetries, INIT, steps).Some? && i in Run(maxRetries, INIT, steps).value.ops
    ensures var s := Run(maxRetries, INIT, steps).value;
            exists more :: |more| <= 24 * (maxRetries + 1) && Finishes(maxRetries, s, more, i)
  {
    RunKeeps(maxRetries, INIT, steps);
    RunSpends(maxRetries, INIT, steps, i);
    var s := Run(maxRetries, INIT, steps).value;
    var more := CanBeFinished(maxRetries, s, i);
    assert Finishes(maxRetries, s, more, i);
  }
}
