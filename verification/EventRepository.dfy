/** `EventRepository` as one process sees it: the events table changed in place by calls of `append` that
    nobody interrupts, and the proof that such a call does what its steps do in `AppendProtocol`. */
module EventRepositories {
  import opened Wrappers
  import opened AppendProtocol

  /** The attempt that stores the row: the first that does not fail, if only serialization failures
      precede it and no more of them than may be retried. */
  predicate StoresAt(faults: nat -> Option<Error>, k: nat) {
    k <= INNER_RETRIES && faults(k).None? && forall j: nat :: j < k ==> faults(j) == Some(Serialization)
  }

  class EventRepository {
    /** The committed rows, in commit order. */
    var rows: seq<Row>

    ghost predicate Valid()
      reads this
    {
      Dense(rows)
    }

    constructor ()
      ensures Valid() && rows == []
    {
      rows := [];
    }

    /** `append` by the call named op. faults(k) is the error, if any, that attempt k meets between acquiring
        a client and COMMIT; the rollback then leaves the table as it was. */
    method Append(aggregate: Aggregate, op: OpId, faults: nat -> Option<Error>) returns (error: Option<Error>)
      requires Valid()
      modifies this
      ensures Valid()
      ensures error.None? <==> exists k: nat :: StoresAt(faults, k)
      ensures error == Some(Serialization) <==> forall k: nat :: k < 4 ==> faults(k) == Some(Serialization)
      ensures error.None? ==> rows == old(rows) + [Row(aggregate, Count(old(rows), aggregate) + 1, op)]
      ensures error.Some? ==> rows == old(rows)
      ensures error.Some? ==> exists k: nat :: && k <= INNER_RETRIES && faults(k) == error
                                               && (error == Some(Serialization) ==> k == INNER_RETRIES)
                                               && forall j: nat :: j < k ==> faults(j) == Some(Serialization)
    {
      var attempt: nat := 0;
      while true
        invariant attempt <= INNER_RETRIES && rows == old(rows)
        invariant forall j: nat :: j < attempt ==> faults(j) == Some(Serialization)
        decreases INNER_RETRIES - attempt
      {
        error := faults(attempt);
        if error.None? {
          assert StoresAt(faults, attempt);
          DenseMax(rows, aggregate);
          var row := Row(aggregate, MaxVersion(rows, aggregate) + 1, op);
          DenseAdd(rows, row);
          rows := rows + [row];
          return;
        }
        if error != Some(Serialization) || attempt >= INNER_RETRIES {
          assert forall k: nat :: StoresAt(faults, k) ==> k > attempt;
          return;
        }
        attempt := attempt + 1;
      }
    }

    /** The query of `load`: the aggregate's rows, ordered by version. */
    method Select(aggregate: Aggregate) returns (r: seq<Row>)
      requires Valid()
      ensures r == Stream(rows, aggregate)
      ensures forall i :: 0 <= i < |r| ==> r[i].version == i + 1 && r[i].aggregate == aggregate
    {
      r := Stream(rows, aggregate);
      forall i | 0 <= i < |r| ensures r[i].version == i + 1 && r[i].aggregate == aggregate {
        DenseStream(rows, aggregate, i);
      }
    }
  }

  /** The steps of one successful attempt. */
  function Attempt(op: OpId): seq<Step> {
    [ReadMax(op), Insert(op), Commit(op)]
  }

  /** In any reachable state, an attempt that nobody interrupts adds the row that the method adds, and cannot
      meet a conflict, unless another call has an uncommitted row of the same aggregate. */
  lemma AttemptAloneIsAppend(maxRetries: nat, s: State, i: OpId)
    requires Inv(maxRetries, s) && i in s.ops && s.ops[i].phase == Ready
    ensures var a := s.ops[i].aggregate;
            var t := Run(maxRetries, s, Attempt(i));
            && (t.Some? <==> forall p :: p in s.ops && s.ops[p].aggregate == a ==> !s.ops[p].phase.Holding?)
            && (t.Some? ==> t.value.rows == s.rows + [Row(a, Count(s.rows, a) + 1, i)])
            && (t.Some? ==> i in t.value.ops && t.value.ops[i].phase == Done)
  {
    var o := s.ops[i];
    var v := Count(s.rows, o.aggregate) + 1;
    DenseMax(s.rows, o.aggregate);
    DenseHas(s.rows, o.aggregate, v);
    var read := Apply(maxRetries, s, ReadMax(i)).value;
    assert read.ops[i] == o.(phase := HasRead(v));
    BlockedByHolder(maxRetries, s, i, read);
    RunAttempt(maxRetries, s, i, read);
  }

  /** An attempt is its three steps, one after the other. */
  lemma RunAttempt(maxRetries: nat, s: State, i: OpId, read: State)
    requires Apply(maxRetries, s, ReadMax(i)) == Some(read)
    ensures Run(maxRetries, s, Attempt(i)) ==
            var held := Apply(maxRetries, read, Insert(i));
            if held.Some? then Apply(maxRetries, held.value, Commit(i)) else None
  {
    RunCons(maxRetries, s, ReadMax(i), [Insert(i), Commit(i)]);
    RunCons(maxRetries, read, Insert(i), [Commit(i)]);
    assert Attempt(i) == [ReadMax(i)] + [Insert(i), Commit(i)];
    assert [Insert(i), Commit(i)] == [Insert(i)] + [Commit(i)];
    var held := Apply(maxRetries, read, Insert(i));
    if held.Some? {
      RunCons(maxRetries, held.value, Commit(i), []);
      assert [Commit(i)] == [Commit(i)] + [];
    }
  }

  lemma HolderVersion(maxRetries: nat, s: State, p: OpId)
    requires Inv(maxRetries, s) && p in s.ops && s.ops[p].phase.Holding?
    ensures s.ops[p].phase == Holding(Count(s.rows, s.ops[p].aggregate) + 1)
  {
    assert OpOk(s.rows, p, s.ops[p], maxRetries);
  }

  lemma ReadMaxLeaves(maxRetries: nat, s: State, i: OpId, read: State)
    requires Apply(maxRetries, s, ReadMax(i)) == Some(read)
    ensures read.ops.Keys == s.ops.Keys && i in s.ops && s.ops[i].phase == Ready
    ensures forall p :: p in s.ops && p != i ==> read.ops[p] == s.ops[p]
  {
  }

  /** Whoever has an uncommitted row of the aggregate has the version that the attempt reads. */
  lemma BlockedByHolder(maxRetries: nat, s: State, i: OpId, read: State)
    requires Inv(maxRetries, s) && i in s.ops && s.ops[i].phase == Ready
    requires read == Apply(maxRetries, s, ReadMax(i)).value
    ensures var a := s.ops[i].aggregate;
            Blocked(read, i, a, Count(s.rows, a) + 1) <==>
            exists p :: p in s.ops && s.ops[p].aggregate == a && s.ops[p].phase.Holding?
  {
    var a := s.ops[i].aggregate;
    ReadMaxLeaves(maxRetries, s, i, read);
    if p :| p in s.ops && s.ops[p].aggregate == a && s.ops[p].phase.Holding? {
      HolderVersion(maxRetries, s, p);
      assert p in read.ops && p != i && read.ops[p] == s.ops[p];
    }
    if Blocked(read, i, a, Count(s.rows, a) + 1) {
      var p :| p in read.ops && p != i && read.ops[p].aggregate == a &&
               read.ops[p].phase == Holding(Count(s.rows, a) + 1);
      assert s.ops[p] == read.ops[p];
    }
  }

  lemma RunCons(maxRetries: nat, s: State, step: Step, rest: seq<Step>)
    ensures Run(maxRetries, s, [step] + rest)
         == if Apply(maxRetries, s, step).Some? then Run(maxRetries, Apply(maxRetries, s, step).value, rest) else None
  {
  }
}
