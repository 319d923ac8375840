/** `eachBatch`: messages are grouped by key, the groups run concurrently, each message is settled by the
    processor or by the dead-letter topic, and offsets are resolved when every group is done. */
module ConsumerBatch {
  import opened Wrappers

  /** A Kafka message as far as the engine looks at it. */
  datatype Message = Message(key: Option<string>, hasValue: bool)

  function KeyOf(m: Message): string {
    if m.key.Some? then m.key.value else "anonymous"
  }

  datatype Group = Group(key: string, indices: seq<nat>)

  // ----- grouping -----

  /** The positions below n of the messages with this key, in batch order. */
  function IndicesOf(messages: seq<Message>, key: string, n: nat): (r: seq<nat>)
    requires n <= |messages|
  {
    if n == 0 then [] else IndicesOf(messages, key, n - 1) + (if KeyOf(messages[n - 1]) == key then [n - 1] else [])
  }

  ghost predicate HasGroup(groups: seq<Group>, key: string) {
    exists g :: 0 <= g < |groups| && groups[g].key == key
  }

  /** What the Map holds after the first n messages. */
  ghost predicate GroupsOf(groups: seq<Group>, messages: seq<Message>, n: nat)
    requires n <= |messages|
  {
    && (forall g, h :: 0 <= g < h < |groups| ==> groups[g].key != groups[h].key)
    && (forall g :: 0 <= g < |groups| ==> groups[g].indices == IndicesOf(messages, groups[g].key, n))
    && (forall m :: 0 <= m < n ==> HasGroup(groups, KeyOf(messages[m])))
  }

  /** The Map lookup: the position of the key's group, or the number of groups. */
  method FindGroup(groups: seq<Group>, key: string) returns (g: nat)
    ensures g <= |groups|
    ensures g < |groups| ==> groups[g].key == key
    ensures g == |groups| <==> !HasGroup(groups, key)
  {
    g := 0;
    while g < |groups| && groups[g].key != key
      invariant 0 <= g <= |groups|
      invariant forall h :: 0 <= h < g ==> groups[h].key != key
    {
      g := g + 1;
    }
  }

  method KeyGroups(messages: seq<Message>) returns (groups: seq<Group>)
    ensures GroupsOf(groups, messages, |messages|)
  {
    groups := [];
    for n := 0 to |messages|
      invariant GroupsOf(groups, messages, n)
    {
      groups := KeepMessage(groups, messages, n);
    }
  }

  /** One turn of the grouping loop: a missing key gets an empty list, and the message joins its key's list. */
  method KeepMessage(groups: seq<Group>, messages: seq<Message>, n: nat) returns (more: seq<Group>)
    requires n < |messages| && GroupsOf(groups, messages, n)
    ensures GroupsOf(more, messages, n + 1)
  {
    var key := KeyOf(messages[n]);
    var g := FindGroup(groups, key);
    if g == |groups| {
      NewGroup(groups, messages, n);
      more := groups + [Group(key, [])];
    } else {
      more := groups;
    }
    PushToGroup(more, messages, n, g);
    more := more[g := Group(more[g].key, more[g].indices + [n])];
  }

  lemma IndicesStep(messages: seq<Message>, key: string, n: nat)
    requires n < |messages|
    ensures IndicesOf(messages, key, n + 1) ==
            IndicesOf(messages, key, n) + (if KeyOf(messages[n]) == key then [n] else [])
  {
  }

  /** `has(key)` false: an empty group for a new key is what the Map should hold. */
  lemma NewGroup(groups: seq<Group>, messages: seq<Message>, n: nat)
    requires n < |messages| && GroupsOf(groups, messages, n) && !HasGroup(groups, KeyOf(messages[n]))
    ensures GroupsOf(groups + [Group(KeyOf(messages[n]), [])], messages, n)
  {
    var more := groups + [Group(KeyOf(messages[n]), [])];
    NoIndices(groups, messages, n, KeyOf(messages[n]));
    forall m | 0 <= m < n ensures HasGroup(more, KeyOf(messages[m])) {
      SameKeys(groups, more, KeyOf(messages[m]));
    }
  }

  /** `get(key).push(msg)` accounts for message n. */
  lemma PushToGroup(groups: seq<Group>, messages: seq<Message>, n: nat, g: nat)
    requires n < |messages| && GroupsOf(groups, messages, n)
    requires g < |groups| && groups[g].key == KeyOf(messages[n])
    ensures GroupsOf(groups[g := Group(groups[g].key, groups[g].indices + [n])], messages, n + 1)
  {
    var more := groups[g := Group(groups[g].key, groups[g].indices + [n])];
    forall h | 0 <= h < |more|
      ensures more[h].key == groups[h].key
      ensures more[h].indices == IndicesOf(messages, groups[h].key, n + 1)
    {
      IndicesStep(messages, groups[h].key, n);
      assert h != g ==> groups[h].key != groups[g].key;
    }
    forall m | 0 <= m < n + 1 ensures HasGroup(more, KeyOf(messages[m])) {
      if m == n {
        assert more[g].key == KeyOf(messages[m]);
      } else {
        SameKeys(groups, more, KeyOf(messages[m]));
      }
    }
  }

  /** Groups are found by their keys alone. */
  lemma SameKeys(groups: seq<Group>, more: seq<Group>, key: string)
    requires HasGroup(groups, key)
    requires |groups| <= |more| && forall h :: 0 <= h < |groups| ==> more[h].key == groups[h].key
    ensures HasGroup(more, key)
  {
  }

  ghost predicate Increasing(xs: seq<nat>) {
    forall p, q :: 0 <= p < q < |xs| ==> xs[p] < xs[q]
  }

  lemma {:induction false} IndicesMember(messages: seq<Message>, key: string, n: nat, m: nat)
    requires n <= |messages|
    ensures m in IndicesOf(messages, key, n) <==> m < n && KeyOf(messages[m]) == key
  {
    if n > 0 {
      IndicesMember(messages, key, n - 1, m);
    }
  }

  /** A key without a group has not occurred. */
  lemma NoIndices(groups: seq<Group>, messages: seq<Message>, n: nat, key: string)
    requires n <= |messages| && GroupsOf(groups, messages, n) && !HasGroup(groups, key)
    ensures IndicesOf(messages, key, n) == []
  {
    var r := IndicesOf(messages, key, n);
    if r != [] {
      assert r[0] in r;
      IndicesMember(messages, key, n, r[0]);
    }
  }

  lemma {:induction false} IndicesIncrease(messages: seq<Message>, key: string, n: nat)
    requires n <= |messages|
    ensures Increasing(IndicesOf(messages, key, n))
  {
    if n > 0 {
      IndicesIncrease(messages, key, n - 1);
      var r := IndicesOf(messages, key, n - 1);
      forall p | 0 <= p < |r| ensures r[p] < n - 1 {
        assert r[p] in r;
        IndicesMember(messages, key, n - 1, r[p]);
      }
    }
  }

  lemma IndicesAre(messages: seq<Message>, key: string)
    ensures Increasing(IndicesOf(messages, key, |messages|))
    ensures forall m: nat :: m in IndicesOf(messages, key, |messages|) <==> m < |messages| && KeyOf(messages[m]) == key
  {
    IndicesIncrease(messages, key, |messages|);
    forall m: nat ensures m in IndicesOf(messages, key, |messages|) <==> m < |messages| && KeyOf(messages[m]) == key {
      IndicesMember(messages, key, |messages|, m);
    }
  }

  ghost predicate Disjoint(lists: seq<seq<nat>>) {
    forall t, u, m :: 0 <= t < |lists| && 0 <= u < |lists| && m in lists[t] && m in lists[u] ==> t == u
  }

  ghost predicate Covered(lists: seq<seq<nat>>, m: nat) {
    exists t :: 0 <= t < |lists| && m in lists[t]
  }

  /** Every position of the batch lies in exactly one list, once, and each list is in batch order. */
  ghost predicate Partition(lists: seq<seq<nat>>, n: nat) {
    && (forall t :: 0 <= t < |lists| ==> Increasing(lists[t]))
    && (forall t, m :: 0 <= t < |lists| && m in lists[t] ==> m < n)
    && Disjoint(lists)
    && (forall m: nat :: m < n ==> Covered(lists, m))
  }

  function Lists(groups: seq<Group>): (r: seq<seq<nat>>)
    ensures |r| == |groups| && forall g :: 0 <= g < |groups| ==> r[g] == groups[g].indices
  {
    seq(|groups|, g requires 0 <= g < |groups| => groups[g].indices)
  }

  /** The groups partition the batch, and two messages share a group exactly when they share a key. */
  lemma GroupsPartitionTheBatch(groups: seq<Group>, messages: seq<Message>)
    requires GroupsOf(groups, messages, |messages|)
    ensures Partition(Lists(groups), |messages|)
    ensures forall g, a, b :: 0 <= g < |groups| && a in Lists(groups)[g] && 0 <= b < |messages| ==>
              (b in Lists(groups)[g] <==> KeyOf(messages[b]) == KeyOf(messages[a]))
  {
    var lists := Lists(groups);
    forall g | 0 <= g < |groups|
      ensures Increasing(lists[g])
      ensures forall m: nat :: m in lists[g] <==> m < |messages| && KeyOf(messages[m]) == groups[g].key
    {
      IndicesAre(messages, groups[g].key);
    }
    forall m: nat | m < |messages| ensures Covered(lists, m) {
      assert HasGroup(groups, KeyOf(messages[m]));
      var g :| 0 <= g < |groups| && groups[g].key == KeyOf(messages[m]);
      assert m in lists[g];
    }
    forall t, u, m | 0 <= t < |lists| && 0 <= u < |lists| && m in lists[t] && m in lists[u] ensures t == u {
      assert groups[t].key == groups[u].key;
    }
  }

  // ----- the engine as concurrent groups -----

  /** How far a group is with its current message. */
  datatype Stage = Fresh | Appended | Projected | Catching

  datatype Status = Running | Finished | Rejected

  datatype Thread = Thread(pos: nat, stage: Stage, status: Status)

  datatype Kind = Append | Project | Processed | DeadLettered

  /** One visible effect on behalf of a message of the batch. */
  datatype Effect = Effect(kind: Kind, msg: nat)

  datatype Main = Waiting | Resolving(next: nat) | Completed | Aborted

  datatype State = State(threads: seq<Thread>, log: seq<Effect>, resolved: seq<nat>, main: Main)

  datatype Batch = Batch(messages: seq<Message>, lists: seq<seq<nat>>)

  datatype Step =
    | SkipNull(t: nat)
    | AppendOk(t: nat)
    | ProjectOk(t: nat)
    | ProcessOk(t: nat)
    | Throw(t: nat, applied: bool)
    | DlqOk(t: nat)
    | DlqFail(t: nat, applied: bool)
    | HeartbeatOk(t: nat)
    | HeartbeatFail(t: nat)
    | Gather
    | Reject
    | Resolve
    | CommitOk
    | CommitFail

  function Init(b: Batch): State {
    State(seq(|b.lists|, _ => Thread(0, Fresh, Running)), [], [], Waiting)
  }

  ghost predicate BatchOk(b: Batch) {
    Partition(b.lists, |b.messages|)
  }

  predicate OnMessage(b: Batch, s: State, t: nat) {
    t < |s.threads| == |b.lists| && s.threads[t].status.Running? && s.threads[t].pos < |b.lists[t]|
  }

  function Current(b: Batch, s: State, t: nat): nat
    requires OnMessage(b, s, t)
  {
    b.lists[t][s.threads[t].pos]
  }

  predicate HasValue(b: Batch, m: nat) {
    m < |b.messages| && b.messages[m].hasValue
  }

  function SetThread(s: State, t: nat, th: Thread): State
    requires t < |s.threads|
  {
    s.(threads := s.threads[t := th])
  }

  function Next(th: Thread): Thread {
    Thread(th.pos + 1, Fresh, Running)
  }

  function ThreadStep(b: Batch, s: State, t: nat, step: Step): Option<State>
    requires OnMessage(b, s, t)
  {
    var th, m := s.threads[t], Current(b, s, t);
    match step
    case SkipNull(_) =>
      if th.stage.Fresh? && !HasValue(b, m)
      then Some(SetThread(s.(resolved := s.resolved + [m]), t, Next(th))) else None
    case AppendOk(_) =>
      if th.stage.Fresh? && HasValue(b, m)
      then Some(SetThread(s.(log := s.log + [Effect(Append, m)]), t, th.(stage := Appended))) else None
    case ProjectOk(_) =>
      if th.stage.Appended?
      then Some(SetThread(s.(log := s.log + [Effect(Project, m)]), t, th.(stage := Projected))) else None
    case ProcessOk(_) =>
      if th.stage.Projected?
      then Some(SetThread(s.(log := s.log + [Effect(Processed, m)]), t, Next(th))) else None
    case Throw(_, applied) =>
      if th.stage.Catching? || (th.stage.Fresh? && !HasValue(b, m)) then None
      else if applied && th.stage.Appended?
      then Some(SetThread(s.(log := s.log + [Effect(Project, m)]), t, th.(stage := Catching)))
      else Some(SetThread(s, t, th.(stage := Catching)))
    case DlqOk(_) =>
      if th.stage.Catching?
      then Some(SetThread(s.(log := s.log + [Effect(DeadLettered, m)]), t, Next(th))) else None
    case DlqFail(_, applied) =>
      if !th.stage.Catching? then None
      else if applied
      then Some(SetThread(s.(log := s.log + [Effect(DeadLettered, m)]), t, Next(th).(status := Rejected)))
      else Some(SetThread(s, t, th.(status := Rejected)))
    case _ => None
  }

  /** The heartbeat that ends a group. */
  function EndStep(b: Batch, s: State, t: nat, ok: bool): Option<State> {
    if t < |s.threads| == |b.lists| && s.threads[t].status.Running? && s.threads[t].pos == |b.lists[t]|
    then Some(SetThread(s, t, s.threads[t].(status := if ok then Finished else Rejected))) else None
  }

  predicate AllFinished(s: State) {
    forall t :: 0 <= t < |s.threads| ==> s.threads[t].status.Finished?
  }

  predicate SomeRejected(s: State) {
    exists t :: 0 <= t < |s.threads| && s.threads[t].status.Rejected?
  }

  /** Rejecting the batch does not stop the other groups. */
  function Apply(b: Batch, s: State, step: Step): Option<State> {
    match step
    case Gather => if s.main.Waiting? && AllFinished(s) then Some(s.(main := Resolving(0))) else None
    case Reject => if s.main.Waiting? && SomeRejected(s) then Some(s.(main := Aborted)) else None
    case Resolve =>
      if s.main.Resolving? && s.main.next < |b.messages|
      then Some(s.(main := Resolving(s.main.next + 1), resolved := s.resolved + [s.main.next])) else None
    case CommitOk => if s.main == Resolving(|b.messages|) then Some(s.(main := Completed)) else None
    case CommitFail => if s.main == Resolving(|b.messages|) then Some(s.(main := Aborted)) else None
    case HeartbeatOk(t) => EndStep(b, s, t, true)
    case HeartbeatFail(t) => EndStep(b, s, t, false)
    case _ => if OnMessage(b, s, step.t) then ThreadStep(b, s, step.t, step) else None
  }

  function Run(b: Batch, s: State, steps: seq<Step>): Option<State>
    decreases |steps|
  {
    if steps == [] then Some(s)
    else
      var n :- Apply(b, s, steps[0]);
      Run(b, n, steps[1..])
  }

  // ----- the invariant -----

  predicate Settles(e: Effect) {
    e.kind.Processed? || e.kind.DeadLettered?
  }

  function Settlements(log: seq<Effect>, m: nat): nat {
    if log == [] then 0
    else Settlements(log[..|log| - 1], m) + (if log[|log| - 1].msg == m && Settles(log[|log| - 1]) then 1 else 0)
  }

  lemma SettlementsAdd(log: seq<Effect>, e: Effect, m: nat)
    ensures Settlements(log + [e], m) == Settlements(log, m) + (if e.msg == m && Settles(e) then 1 else 0)
  {
  }

  /** The messages a group has passed are settled once if they carry a value, the others not yet. */
  ghost predicate SettledUpTo(b: Batch, log: seq<Effect>, list: seq<nat>, pos: nat) {
    forall p :: 0 <= p < |list| ==> Settlements(log, list[p]) == if p < pos && HasValue(b, list[p]) then 1 else 0
  }

  /** No effect of the group lies ahead of its current message. */
  ghost predicate NotAhead(log: seq<Effect>, list: seq<nat>, pos: nat) {
    pos < |list| ==> forall i :: 0 <= i < |log| && log[i].msg in list ==> log[i].msg <= list[pos]
  }

  /** The effects on behalf of one group come in batch order. */
  ghost predicate InOrder(log: seq<Effect>, list: seq<nat>) {
    forall i, j :: 0 <= i < j < |log| && log[i].msg in list && log[j].msg in list ==> log[i].msg <= log[j].msg
  }

  ghost predicate ThreadOk(b: Batch, log: seq<Effect>, th: Thread, list: seq<nat>) {
    && th.pos <= |list|
    && (th.status.Finished? ==> th.pos == |list|)
    && (th.pos < |list| && !th.stage.Fresh? ==> HasValue(b, list[th.pos]))
    && SettledUpTo(b, log, list, th.pos)
    && NotAhead(log, list, th.pos)
    && InOrder(log, list)
  }

  ghost predicate ThreadsOk(b: Batch, s: State) {
    |s.threads| == |b.lists| && forall t :: 0 <= t < |s.threads| ==> ThreadOk(b, s.log, s.threads[t], b.lists[t])
  }

  ghost predicate NoneResolved(b: Batch, resolved: seq<nat>) {
    forall m :: m in resolved ==> !HasValue(b, m)
  }

  ghost predicate ResolvedOk(b: Batch, s: State) {
    && (s.main.Waiting? || SomeRejected(s) ==> NoneResolved(b, s.resolved))
    && (s.main.Resolving? || s.main.Completed? ==> AllFinished(s))
    && (s.main.Aborted? ==> AllFinished(s) || SomeRejected(s))
    && (s.main.Resolving? ==> s.main.next <= |b.messages| && forall m: nat :: m < s.main.next ==> m in s.resolved)
    && (s.main.Completed? ==> forall m: nat :: m < |b.messages| ==> m in s.resolved)
  }

  ghost predicate Inv(b: Batch, s: State) {
    ThreadsOk(b, s) && ResolvedOk(b, s)
  }

  /** The logs before and after one step of a group that works on message m. */
  predicate Logged(before: seq<Effect>, after: seq<Effect>, m: nat) {
    after == before || (|after| == |before| + 1 && after[..|before|] == before && after[|before|].msg == m)
  }

  /** A step of another group. */
  lemma OtherGroup(b: Batch, before: seq<Effect>, after: seq<Effect>, m: nat, th: Thread, list: seq<nat>)
    requires ThreadOk(b, before, th, list) && Logged(before, after, m) && m !in list
    ensures ThreadOk(b, after, th, list)
  {
    if after != before {
      var e := after[|before|];
      assert after == before + [e];
      forall p | 0 <= p < |list| ensures Settlements(after, list[p]) == Settlements(before, list[p]) {
        SettlementsAdd(before, e, list[p]);
        assert list[p] in list;
      }
    }
  }

  /** An effect that does not settle, for the current message. */
  lemma OwnEffect(b: Batch, before: seq<Effect>, e: Effect, th: Thread, list: seq<nat>)
    requires ThreadOk(b, before, th, list) && th.pos < |list| && e.msg == list[th.pos] && !Settles(e)
    ensures SettledUpTo(b, before + [e], list, th.pos)
    ensures NotAhead(before + [e], list, th.pos)
    ensures InOrder(before + [e], list)
  {
  }

  /** Settling the current message and moving on. */
  lemma OwnSettlement(b: Batch, before: seq<Effect>, e: Effect, th: Thread, list: seq<nat>)
    requires ThreadOk(b, before, th, list) && Increasing(list) && th.pos < |list|
    requires e.msg == list[th.pos] && Settles(e) && HasValue(b, e.msg)
    ensures ThreadOk(b, before + [e], Next(th), list)
  {
  }

  /** Passing a message without a value. */
  lemma OwnSkip(b: Batch, log: seq<Effect>, th: Thread, list: seq<nat>)
    requires ThreadOk(b, log, th, list) && Increasing(list) && th.pos < |list| && !HasValue(b, list[th.pos])
    ensures ThreadOk(b, log, Next(th), list)
  {
  }

  /** What one step leaves alone. */
  lemma OwnFrame(b: Batch, s: State, t: nat, step: Step)
    requires OnMessage(b, s, t) && ThreadStep(b, s, t, step).Some?
    ensures var n := ThreadStep(b, s, t, step).value;
            && |n.threads| == |s.threads|
            && Logged(s.log, n.log, Current(b, s, t))
            && (n.threads[t].status.Running? || n.threads[t].status.Rejected?)
            && (forall u :: 0 <= u < |s.threads| && u != t ==> n.threads[u] == s.threads[u])
            && n.main == s.main
            && (n.resolved == s.resolved ||
                (n.resolved == s.resolved + [Current(b, s, t)] && !HasValue(b, Current(b, s, t))))
  {
  }

  /** A step with an effect that does not settle, or with none. */
  lemma OwnWork(b: Batch, before: seq<Effect>, after: seq<Effect>, th: Thread, list: seq<nat>, stage: Stage)
    requires ThreadOk(b, before, th, list) && th.pos < |list| && HasValue(b, list[th.pos])
    requires after == before ||
             exists kind :: !Settles(Effect(kind, 0)) && after == before + [Effect(kind, list[th.pos])]
    requires th.status.Running?
    ensures ThreadOk(b, after, th.(stage := stage), list)
  {
    if after != before {
      var kind :| !Settles(Effect(kind, 0)) && after == before + [Effect(kind, list[th.pos])];
      OwnEffect(b, before, Effect(kind, list[th.pos]), th, list);
    }
  }

  /** What one step does to its own group. */
  lemma OwnGroup(b: Batch, s: State, t: nat, step: Step)
    requires OnMessage(b, s, t) && ThreadStep(b, s, t, step).Some?
    requires Increasing(b.lists[t]) && ThreadOk(b, s.log, s.threads[t], b.lists[t])
    ensures var n := ThreadStep(b, s, t, step).value;
            |n.threads| == |s.threads| && ThreadOk(b, n.log, n.threads[t], b.lists[t])
  {
    var th, m, list := s.threads[t], Current(b, s, t), b.lists[t];
    var n := ThreadStep(b, s, t, step).value;
    match step
    case SkipNull(_) => OwnSkip(b, s.log, th, list);
    case AppendOk(_) => OwnWork(b, s.log, n.log, th, list, Appended);
    case ProjectOk(_) => OwnWork(b, s.log, n.log, th, list, Projected);
    case ProcessOk(_) => OwnSettlement(b, s.log, Effect(Processed, m), th, list);
    case Throw(_, _) => OwnWork(b, s.log, n.log, th, list, Catching);
    case DlqOk(_) => OwnSettlement(b, s.log, Effect(DeadLettered, m), th, list);
    case DlqFail(_, _) => OwnSettlement(b, s.log, Effect(DeadLettered, m), th, list);
    case _ =>
  }

  lemma ThreadStepKeeps(b: Batch, s: State, t: nat, step: Step)
    requires BatchOk(b) && Inv(b, s) && OnMessage(b, s, t) && ThreadStep(b, s, t, step).Some?
    ensures Inv(b, ThreadStep(b, s, t, step).value)
  {
    var n := ThreadStep(b, s, t, step).value;
    var m := Current(b, s, t);
    OwnFrame(b, s, t, step);
    OwnGroup(b, s, t, step);
    assert m in b.lists[t];
    forall u | 0 <= u < |n.threads| ensures ThreadOk(b, n.log, n.threads[u], b.lists[u]) {
      if u != t {
        assert m !in b.lists[u];
        OtherGroup(b, s.log, n.log, m, s.threads[u], b.lists[u]);
      }
    }
    assert !AllFinished(s) by {
      assert s.threads[t].status.Running?;
    }
    if s.main.Waiting? || SomeRejected(n) {
      assert NoneResolved(b, s.resolved);
    }
    if s.main.Aborted? {
      var r :| 0 <= r < |s.threads| && s.threads[r].status.Rejected?;
      assert r != t && n.threads[r] == s.threads[r];
      assert SomeRejected(n);
    }
  }

  lemma EndStepKeeps(b: Batch, s: State, t: nat, ok: bool)
    requires BatchOk(b) && Inv(b, s) && EndStep(b, s, t, ok).Some?
    ensures Inv(b, EndStep(b, s, t, ok).value)
  {
  }

  lemma StepKeeps(b: Batch, s: State, step: Step)
    requires BatchOk(b) && Inv(b, s) && Apply(b, s, step).Some?
    ensures Inv(b, Apply(b, s, step).value)
  {
    match step
    case Gather =>
    case Reject =>
    case Resolve =>
      var n := Apply(b, s, step).value;
      assert !SomeRejected(n);
    case CommitOk =>
    case CommitFail =>
    case HeartbeatOk(t) => EndStepKeeps(b, s, t, true);
    case HeartbeatFail(t) => EndStepKeeps(b, s, t, false);
    case _ => ThreadStepKeeps(b, s, step.t, step);
  }

  lemma InitOk(b: Batch)
    requires BatchOk(b)
    ensures Inv(b, Init(b))
  {
  }

  lemma {:induction false} RunKeeps(b: Batch, s: State, steps: seq<Step>)
    requires BatchOk(b) && Inv(b, s) && Run(b, s, steps).Some?
    ensures Inv(b, Run(b, s, steps).value)
    decreases |steps|
  {
    if steps != [] {
      StepKeeps(b, s, steps[0]);
      RunKeeps(b, Apply(b, s, steps[0]).value, steps[1..]);
    }
  }

  // ----- main results -----

  /** In a completed batch every message with a value was settled exactly once, as processed or
      dead-lettered, every message without one not at all, and every offset was resolved. */
  lemma CompletedBatchIsAccounted(b: Batch, steps: seq<Step>)
    requires BatchOk(b) && Run(b, Init(b), steps).Some? && Run(b, Init(b), steps).value.main.Completed?
    ensures var s := Run(b, Init(b), steps).value;
            forall m: nat :: m < |b.messages| ==>
              Settlements(s.log, m) == (if HasValue(b, m) then 1 else 0) && m in s.resolved
  {
    InitOk(b);
    RunKeeps(b, Init(b), steps);
    var s := Run(b, Init(b), steps).value;
    forall m: nat | m < |b.messages| ensures Settlements(s.log, m) == (if HasValue(b, m) then 1 else 0) {
      assert Covered(b.lists, m);
      var t :| 0 <= t < |b.lists| && m in b.lists[t];
      assert ThreadOk(b, s.log, s.threads[t], b.lists[t]);
      var p :| 0 <= p < |b.lists[t]| && b.lists[t][p] == m;
    }
  }

  /** At any moment of any run no message is settled twice, and the effects on behalf of messages of the
      same group come in batch order. */
  lemma EffectsAreOrdered(b: Batch, steps: seq<Step>, t: nat, i: nat, j: nat)
    requires BatchOk(b) && Run(b, Init(b), steps).Some?
    requires t < |b.lists| && i < j < |Run(b, Init(b), steps).value.log|
    requires var log := Run(b, Init(b), steps).value.log; log[i].msg in b.lists[t] && log[j].msg in b.lists[t]
    ensures var log := Run(b, Init(b), steps).value.log;
            log[i].msg <= log[j].msg && Settlements(log, log[i].msg) <= 1
  {
    InitOk(b);
    RunKeeps(b, Init(b), steps);
    var s := Run(b, Init(b), steps).value;
    assert ThreadOk(b, s.log, s.threads[t], b.lists[t]);
    var p :| 0 <= p < |b.lists[t]| && b.lists[t][p] == s.log[i].msg;
  }

  /** With the groups that `KeyGroups` builds: the effects of any two messages with the same key come in
      batch order, in every interleaving of the groups. */
  lemma SameKeyInBatchOrder(messages: seq<Message>, groups: seq<Group>, steps: seq<Step>, i: nat, j: nat)
    requires GroupsOf(groups, messages, |messages|)
    requires Run(Batch(messages, Lists(groups)), Init(Batch(messages, Lists(groups))), steps).Some?
    requires var log := Run(Batch(messages, Lists(groups)), Init(Batch(messages, Lists(groups))), steps).value.log;
             && i < j < |log| && log[i].msg < |messages| && log[j].msg < |messages|
             && KeyOf(messages[log[i].msg]) == KeyOf(messages[log[j].msg])
    ensures var log := Run(Batch(messages, Lists(groups)), Init(Batch(messages, Lists(groups))), steps).value.log;
            log[i].msg <= log[j].msg
  {
    var b := Batch(messages, Lists(groups));
    var log := Run(b, Init(b), steps).value.log;
    GroupsPartitionTheBatch(groups, messages);
    assert Covered(b.lists, log[i].msg);
    var t :| 0 <= t < |b.lists| && log[i].msg in b.lists[t];
    EffectsAreOrdered(b, steps, t, i, j);
  }

  /** No offset of a message with a value is resolved before every group has finished, and none at all
      once a group has failed, as it does when a dead-letter send fails. */
  lemma OffsetsWaitForAllGroups(b: Batch, steps: seq<Step>, m: nat)
    requires BatchOk(b) && Run(b, Init(b), steps).Some?
    requires m in Run(b, Init(b), steps).value.resolved && HasValue(b, m)
    ensures AllFinished(Run(b, Init(b), steps).value) && !SomeRejected(Run(b, Init(b), steps).value)
  {
    InitOk(b);
    RunKeeps(b, Init(b), steps);
  }

  /** A group that has failed stays failed, so after a failed dead-letter send nothing with a value is ever
      resolved. */
  lemma {:induction false} RejectionIsFinal(b: Batch, s: State, steps: seq<Step>, t: nat)
    requires t < |s.threads| && s.threads[t].status.Rejected? && Run(b, s, steps).Some?
    ensures t < |Run(b, s, steps).value.threads| && Run(b, s, steps).value.threads[t].status.Rejected?
    decreases |steps|
  {
    if steps != [] {
      RejectionIsFinal(b, Apply(b, s, steps[0]).value, steps[1..], t);
    }
  }

  // ----- messages without a value, whose offsets are resolved at once -----

  /** Resolving an offset passes everything before it in the partition. */
  ghost predicate Passed(s: State, m: nat) {
    exists k :: k in s.resolved && m <= k
  }

  ghost predicate GroupFailed(b: Batch, s: State, m: nat) {
    exists t :: 0 <= t < |b.lists| && t < |s.threads| && m in b.lists[t] && s.threads[t].status.Rejected?
  }

  /** A message with a value that nobody handles any more: the batch and the message's own group have failed
      before it was settled, and its offset is passed, so that it is not delivered again either. */
  ghost predicate Lost(b: Batch, s: State, m: nat) {
    s.main.Aborted? && HasValue(b, m) && GroupFailed(b, s, m) && Settlements(s.log, m) == 0 && Passed(s, m)
  }

  /** A resolved offset belongs to the batch, and its group has gone past it. */
  ghost predicate Behind(b: Batch, s: State) {
    && |s.threads| == |b.lists|
    && (forall k :: k in s.resolved ==> k < |b.messages|)
    && forall t, p :: 0 <= t < |b.lists| && 0 <= p < |b.lists[t]| && b.lists[t][p] in s.resolved ==>
         p < s.threads[t].pos
  }

  lemma ThreadStepBehind(b: Batch, s: State, t: nat, step: Step)
    requires BatchOk(b) && Behind(b, s) && OnMessage(b, s, t) && ThreadStep(b, s, t, step).Some?
    ensures Behind(b, ThreadStep(b, s, t, step).value)
  {
    var n := ThreadStep(b, s, t, step).value;
    var m := Current(b, s, t);
    assert m in b.lists[t];
    assert n.threads == s.threads[t := n.threads[t]] && n.threads[t].pos >= s.threads[t].pos;
    forall u, p | 0 <= u < |b.lists| && 0 <= p < |b.lists[u]| && b.lists[u][p] in n.resolved
      ensures p < n.threads[u].pos {
      if b.lists[u][p] !in s.resolved {
        assert step.SkipNull? && b.lists[u][p] == m && m in b.lists[u];
        assert u == t;
        assert p == s.threads[t].pos;
      }
    }
  }

  lemma StepBehind(b: Batch, s: State, step: Step)
    requires BatchOk(b) && Inv(b, s) && Behind(b, s) && Apply(b, s, step).Some?
    ensures Behind(b, Apply(b, s, step).value)
  {
    match step
    case Gather =>
    case Reject =>
    case Resolve =>
      forall t | 0 <= t < |s.threads| ensures s.threads[t].pos == |b.lists[t]| {
        assert ThreadOk(b, s.log, s.threads[t], b.lists[t]);
      }
    case CommitOk =>
    case CommitFail =>
    case HeartbeatOk(t) =>
    case HeartbeatFail(t) =>
    case _ => ThreadStepBehind(b, s, step.t, step);
  }

  lemma {:induction false} RunBehind(b: Batch, s: State, steps: seq<Step>)
    requires BatchOk(b) && Inv(b, s) && Behind(b, s) && Run(b, s, steps).Some?
    ensures Behind(b, Run(b, s, steps).value)
    decreases |steps|
  {
    if steps != [] {
      StepBehind(b, s, steps[0]);
      StepKeeps(b, s, steps[0]);
      RunBehind(b, Apply(b, s, steps[0]).value, steps[1..]);
    }
  }

  /** k is a later message without a value, in another group than m. */
  ghost predicate SkippedAhead(b: Batch, m: nat, k: nat) {
    && m < k < |b.messages| && !HasValue(b, k)
    && forall t :: 0 <= t < |b.lists| && m in b.lists[t] ==> k !in b.lists[t]
  }

  /** Only a message without a value, later in the batch and in another group, can make a message lost. */
  lemma LostNeedsSkip(b: Batch, steps: seq<Step>, m: nat)
    requires BatchOk(b) && Run(b, Init(b), steps).Some? && Lost(b, Run(b, Init(b), steps).value, m)
    ensures exists k :: SkippedAhead(b, m, k)
  {
    var s := Run(b, Init(b), steps).value;
    InitOk(b);
    RunKeeps(b, Init(b), steps);
    RunBehind(b, Init(b), steps);
    var k :| k in s.resolved && m <= k;
    assert SomeRejected(s) && NoneResolved(b, s.resolved);
    forall t | 0 <= t < |b.lists| && m in b.lists[t] ensures k !in b.lists[t] {
      if k in b.lists[t] {
        SettledBefore(b, s, t, m, k);
      }
    }
    assert SkippedAhead(b, m, k);
  }

  /** What a group has gone past before a skipped message is settled. */
  lemma SettledBefore(b: Batch, s: State, t: nat, m: nat, k: nat)
    requires BatchOk(b) && ThreadsOk(b, s) && Behind(b, s) && t < |b.lists|
    requires m in b.lists[t] && k in b.lists[t] && m <= k && k in s.resolved && HasValue(b, m)
    ensures Settlements(s.log, m) == 1
  {
    var list := b.lists[t];
    var p :| 0 <= p < |list| && list[p] == m;
    var q :| 0 <= q < |list| && list[q] == k;
    assert p <= q by {
      assert Increasing(list);
    }
    assert ThreadOk(b, s.log, s.threads[t], list);
  }

  lemma {:induction false} RunAppend(b: Batch, s: State, x: seq<Step>, y: seq<Step>)
    requires Run(b, s, x).Some?
    ensures Run(b, s, x + y) == Run(b, Run(b, s, x).value, y)
    decreases |x|
  {
    if x == [] {
      assert x + y == y;
    } else {
      assert (x + y)[1..] == x[1..] + y;
      RunAppend(b, Apply(b, s, x[0]).value, x[1..], y);
    }
  }

  lemma RunOne(b: Batch, s: State, x: Step)
    ensures Run(b, s, [x]) == Apply(b, s, x)
  {
    assert [x][1..] == [];
  }

  /** A state in which group t stands before its message number pos, and the rest is as in s or further resolved. */
  ghost predicate MovedTo(b: Batch, s: State, t: nat, pos: nat, n: State) {
    && t < |s.threads| == |n.threads| == |b.lists|
    && n.threads == s.threads[t := Thread(pos, Fresh, Running)]
    && n.main == s.main
    && forall k :: k in s.resolved ==> k in n.resolved
  }

  /** A group can always get its next message out of the way. */
  lemma PassMessage(b: Batch, s: State, t: nat) returns (steps: seq<Step>, n: State)
    requires OnMessage(b, s, t) && s.threads[t].stage.Fresh?
    ensures Run(b, s, steps) == Some(n) && MovedTo(b, s, t, s.threads[t].pos + 1, n)
    ensures !HasValue(b, Current(b, s, t)) ==> Current(b, s, t) in n.resolved
  {
    if !HasValue(b, Current(b, s, t)) {
      steps, n := [SkipNull(t)], Apply(b, s, SkipNull(t)).value;
      RunOne(b, s, SkipNull(t));
    } else {
      var x := Apply(b, s, AppendOk(t)).value;
      var y := Apply(b, x, ProjectOk(t)).value;
      n := Apply(b, y, ProcessOk(t)).value;
      RunOne(b, s, AppendOk(t));
      RunOne(b, x, ProjectOk(t));
      RunOne(b, y, ProcessOk(t));
      RunAppend(b, s, [AppendOk(t)], [ProjectOk(t)]);
      RunAppend(b, s, [AppendOk(t)] + [ProjectOk(t)], [ProcessOk(t)]);
      steps := [AppendOk(t)] + [ProjectOk(t)] + [ProcessOk(t)];
    }
  }

  /** A group can get as far as any of its messages, whatever the others do. */
  lemma {:induction false} MoveTo(b: Batch, s: State, t: nat, pos: nat) returns (steps: seq<Step>, n: State)
    requires t < |s.threads| == |b.lists| && s.threads[t].stage.Fresh? && s.threads[t].status.Running?
    requires s.threads[t].pos <= pos <= |b.lists[t]|
    ensures Run(b, s, steps) == Some(n) && MovedTo(b, s, t, pos, n)
    decreases pos - s.threads[t].pos
  {
    if s.threads[t].pos == pos {
      steps, n := [], s;
      assert s.threads == s.threads[t := Thread(pos, Fresh, Running)];
    } else {
      var first, x := PassMessage(b, s, t);
      var rest;
      rest, n := MoveTo(b, x, t, pos);
      RunAppend(b, s, first, rest);
      steps := first + rest;
    }
  }

  /** Group t fails at its current message, and the batch with it. */
  lemma FailGroup(b: Batch, s: State, t: nat) returns (steps: seq<Step>, n: State)
    requires OnMessage(b, s, t) && s.threads[t].stage.Fresh? && HasValue(b, Current(b, s, t)) && s.main.Waiting?
    ensures Run(b, s, steps) == Some(n) && n.main.Aborted? && n.resolved == s.resolved
    ensures |n.threads| == |s.threads| && n.threads[t] == s.threads[t].(stage := Catching, status := Rejected)
  {
    var x := Apply(b, s, Throw(t, false)).value;
    var y := Apply(b, x, DlqFail(t, false)).value;
    assert y.threads[t].status.Rejected?;
    n := Apply(b, y, Reject).value;
    RunOne(b, s, Throw(t, false));
    RunOne(b, x, DlqFail(t, false));
    RunOne(b, y, Reject);
    RunAppend(b, s, [Throw(t, false)], [DlqFail(t, false)]);
    RunAppend(b, s, [Throw(t, false)] + [DlqFail(t, false)], [Reject]);
    steps := [Throw(t, false)] + [DlqFail(t, false)] + [Reject];
  }

  /** A later message without a value in another group does make it lost, in some run. */
  lemma SkipCanLose(b: Batch, m: nat, k: nat) returns (steps: seq<Step>)
    requires BatchOk(b) && HasValue(b, m) && SkippedAhead(b, m, k)
    ensures Run(b, Init(b), steps).Some? && Lost(b, Run(b, Init(b), steps).value, m)
  {
    assert Covered(b.lists, m) && Covered(b.lists, k);
    var t :| 0 <= t < |b.lists| && m in b.lists[t];
    var u :| 0 <= u < |b.lists| && k in b.lists[u];
    var p :| 0 <= p < |b.lists[t]| && b.lists[t][p] == m;
    var q :| 0 <= q < |b.lists[u]| && b.lists[u][q] == k;
    assert t != u;
    var first, s1 := MoveTo(b, Init(b), t, p);
    var second, s2 := MoveTo(b, s1, u, q);
    var third, s3 := PassMessage(b, s2, u);
    var fourth, s4 := FailGroup(b, s3, t);
    RunAppend(b, Init(b), first, second);
    RunAppend(b, Init(b), first + second, third);
    RunAppend(b, Init(b), first + second + third, fourth);
    steps := first + second + third + fourth;
    InitOk(b);
    RunKeeps(b, Init(b), steps);
    assert ThreadOk(b, s4.log, s4.threads[t], b.lists[t]);
    assert k in s4.resolved && GroupFailed(b, s4, m);
  }

  ghost predicate CanBeLost(b: Batch, m: nat) {
    exists steps :: Run(b, Init(b), steps).Some? && Lost(b, Run(b, Init(b), steps).value, m)
  }

  /** Exactly which messages an early resolved offset can lose when a dead-letter send fails: those with a value
      that have a later message without a value and with another key in the batch. */
  lemma LostIffLaterSkip(messages: seq<Message>, groups: seq<Group>, m: nat)
    requires GroupsOf(groups, messages, |messages|) && m < |messages|
    ensures CanBeLost(Batch(messages, Lists(groups)), m) <==>
            && messages[m].hasValue
            && exists k :: m < k < |messages| && !messages[k].hasValue && KeyOf(messages[k]) != KeyOf(messages[m])
  {
    var b := Batch(messages, Lists(groups));
    GroupsPartitionTheBatch(groups, messages);
    assert Covered(b.lists, m);
    var t :| 0 <= t < |b.lists| && m in b.lists[t];
    if CanBeLost(b, m) {
      var steps :| Run(b, Init(b), steps).Some? && Lost(b, Run(b, Init(b), steps).value, m);
      LostNeedsSkip(b, steps, m);
      var k :| SkippedAhead(b, m, k);
      assert k !in b.lists[t];
    }
    if messages[m].hasValue &&
       exists k :: m < k < |messages| && !messages[k].hasValue && KeyOf(messages[k]) != KeyOf(messages[m]) {
      var k :| m < k < |messages| && !messages[k].hasValue && KeyOf(messages[k]) != KeyOf(messages[m]);
      assert SkippedAhead(b, m, k);
      var steps := SkipCanLose(b, m, k);
    }
  }

  // ----- a batch can always end -----

  /** A group in the middle of a message can always get it out of the way. */
  lemma FinishMessage(b: Batch, s: State, t: nat) returns (steps: seq<Step>, n: State)
    requires OnMessage(b, s, t) && !s.threads[t].stage.Fresh?
    ensures Run(b, s, steps) == Some(n) && MovedTo(b, s, t, s.threads[t].pos + 1, n)
  {
    if s.threads[t].stage.Appended? {
      var x := Apply(b, s, ProjectOk(t)).value;
      RunOne(b, s, ProjectOk(t));
      RunOne(b, x, ProcessOk(t));
      RunAppend(b, s, [ProjectOk(t)], [ProcessOk(t)]);
      steps, n := [ProjectOk(t)] + [ProcessOk(t)], Apply(b, x, ProcessOk(t)).value;
    } else {
      var step := if s.threads[t].stage.Projected? then ProcessOk(t) else DlqOk(t);
      RunOne(b, s, step);
      steps, n := [step], Apply(b, s, step).value;
    }
  }

  /** Group t has finished, and the rest is as in s or further resolved. */
  ghost predicate GroupDone(b: Batch, s: State, t: nat, n: State) {
    && t < |s.threads| == |n.threads| == |b.lists|
    && n.threads[t].status.Finished? && n.threads[t].pos == |b.lists[t]| && n.main == s.main
    && forall u :: 0 <= u < |s.threads| && u != t ==> n.threads[u] == s.threads[u]
  }

  lemma FinishGroup(b: Batch, s: State, t: nat) returns (steps: seq<Step>, n: State)
    requires t < |s.threads| == |b.lists| && s.threads[t].status.Running? && s.threads[t].pos <= |b.lists[t]|
    ensures Run(b, s, steps) == Some(n) && GroupDone(b, s, t, n)
  {
    var first, x := [], s;
    if OnMessage(b, s, t) {
      if s.threads[t].stage.Fresh? {
        first, x := MoveTo(b, s, t, |b.lists[t]|);
      } else {
        var start, y := FinishMessage(b, s, t);
        var rest;
        rest, x := MoveTo(b, y, t, |b.lists[t]|);
        RunAppend(b, s, start, rest);
        first := start + rest;
      }
    }
    n := Apply(b, x, HeartbeatOk(t)).value;
    RunOne(b, x, HeartbeatOk(t));
    RunAppend(b, s, first, [HeartbeatOk(t)]);
    steps := first + [HeartbeatOk(t)];
  }

  /** The groups from t on can all finish. */
  lemma {:induction false} FinishGroups(b: Batch, s: State, t: nat) returns (steps: seq<Step>, n: State)
    requires t <= |s.threads| == |b.lists|
    requires forall u :: 0 <= u < t ==> s.threads[u].status.Finished?
    requires forall u :: 0 <= u < |s.threads| ==> !s.threads[u].status.Rejected? && s.threads[u].pos <= |b.lists[u]|
    ensures Run(b, s, steps) == Some(n) && AllFinished(n) && n.main == s.main
    decreases |s.threads| - t
  {
    if t == |s.threads| {
      steps, n := [], s;
    } else if s.threads[t].status.Finished? {
      steps, n := FinishGroups(b, s, t + 1);
    } else {
      var first, x := FinishGroup(b, s, t);
      var rest;
      rest, n := FinishGroups(b, x, t + 1);
      RunAppend(b, s, first, rest);
      steps := first + rest;
    }
  }

  /** The offsets that are left can be resolved and committed. */
  lemma {:induction false} ResolveRest(b: Batch, s: State) returns (steps: seq<Step>, n: State)
    requires s.main.Resolving? && s.main.next <= |b.messages|
    ensures Run(b, s, steps) == Some(n) && n.main.Completed?
    decreases |b.messages| - (if s.main.Resolving? then s.main.next else 0)
  {
    var step := if s.main.next == |b.messages| then CommitOk else Resolve;
    var x := Apply(b, s, step).value;
    RunOne(b, s, step);
    if step.CommitOk? {
      steps, n := [step], x;
    } else {
      var rest;
      rest, n := ResolveRest(b, x);
      RunAppend(b, s, [step], rest);
      steps := [step] + rest;
    }
  }

  /** Without a failed group a batch can be completed. */
  lemma CompleteFrom(b: Batch, s: State) returns (steps: seq<Step>, n: State)
    requires BatchOk(b) && Inv(b, s) && !SomeRejected(s) && !s.main.Aborted?
    ensures Run(b, s, steps) == Some(n) && n.main.Completed?
  {
    if s.main.Completed? {
      steps, n := [], s;
    } else if s.main.Resolving? {
      steps, n := ResolveRest(b, s);
    } else {
      forall t | 0 <= t < |s.threads| ensures s.threads[t].pos <= |b.lists[t]| {
        assert ThreadOk(b, s.log, s.threads[t], b.lists[t]);
      }
      var first, x := FinishGroups(b, s, 0);
      var y := Apply(b, x, Gather).value;
      RunOne(b, x, Gather);
      var rest;
      rest, n := ResolveRest(b, y);
      RunAppend(b, s, first, [Gather]);
      RunAppend(b, s, first + [Gather], rest);
      steps := first + [Gather] + rest;
    }
  }

  lemma {:induction false} AbortIsFinal(b: Batch, s: State, steps: seq<Step>)
    requires s.main.Aborted? && Run(b, s, steps).Some?
    ensures Run(b, s, steps).value.main.Aborted?
    decreases |steps|
  {
    if steps != [] {
      AbortIsFinal(b, Apply(b, s, steps[0]).value, steps[1..]);
    }
  }

  ghost predicate CanReach(b: Batch, s: State, main: Main) {
    exists more :: Run(b, s, more).Some? && Run(b, s, more).value.main == main
  }

  /** From every reachable state the batch can still be completed exactly when no group has failed and the batch
      has not; otherwise it can be aborted. */
  lemma BatchCanAlwaysEnd(b: Batch, steps: seq<Step>)
    requires BatchOk(b) && Run(b, Init(b), steps).Some?
    ensures var s := Run(b, Init(b), steps).value;
            && (CanReach(b, s, Completed) <==> !SomeRejected(s) && !s.main.Aborted?)
            && (CanReach(b, s, Completed) || CanReach(b, s, Aborted))
  {
    InitOk(b);
    RunKeeps(b, Init(b), steps);
    var s := Run(b, Init(b), steps).value;
    if !SomeRejected(s) && !s.main.Aborted? {
      var more, n := CompleteFrom(b, s);
      assert Run(b, s, more).value.main == Completed;
    } else {
      NeverCompleted(b, s);
      var more := if s.main.Aborted? then [] else [Reject];
      RunOne(b, s, Reject);
      assert Run(b, s, more).Some? && Run(b, s, more).value.main == Aborted;
    }
  }

  lemma NeverCompleted(b: Batch, s: State)
    requires BatchOk(b) && Inv(b, s) && (SomeRejected(s) || s.main.Aborted?)
    ensures !CanReach(b, s, Completed)
  {
    if more :| Run(b, s, more).Some? && Run(b, s, more).value.main == Completed {
      RunKeeps(b, s, more);
      if s.main.Aborted? {
        AbortIsFinal(b, s, more);
      } else {
        var t :| 0 <= t < |s.threads| && s.threads[t].status.Rejected?;
        RejectionIsFinal(b, s, more, t);
      }
      assert false;
    }
  }

  // ----- what the log says of one message -----

  /** No effect twice. */
  ghost predicate NoRepeats(log: seq<Effect>) {
    forall i, j :: 0 <= i < j < |log| ==> log[i] != log[j]
  }

  /** Projection comes after the append, and the processor after the projection. */
  ghost predicate Caused(log: seq<Effect>) {
    && (forall k :: 0 <= k < |log| && log[k].kind.Project? ==> Effect(Append, log[k].msg) in log[..k])
    && (forall k :: 0 <= k < |log| && log[k].kind.Processed? ==> Effect(Project, log[k].msg) in log[..k])
  }

  /** The effects of the message that a group is at. */
  ghost predicate StageOk(log: seq<Effect>, m: nat, stage: Stage) {
    && Effect(Processed, m) !in log && Effect(DeadLettered, m) !in log
    && (stage.Fresh? ==> Effect(Append, m) !in log)
    && (stage.Appended? || stage.Projected? ==> Effect(Append, m) in log)
    && (stage.Fresh? || stage.Appended? ==> Effect(Project, m) !in log)
    && (stage.Projected? ==> Effect(Project, m) in log)
  }

  ghost predicate StagesOk(b: Batch, s: State) {
    && |s.threads| == |b.lists|
    && forall t :: 0 <= t < |s.threads| && s.threads[t].pos < |b.lists[t]| ==>
         StageOk(s.log, b.lists[t][s.threads[t].pos], s.threads[t].stage)
  }

  ghost predicate LogOk(b: Batch, s: State) {
    StagesOk(b, s) && NoRepeats(s.log) && Caused(s.log)
  }

  /** A new effect that its stage allows. */
  lemma EffectAllowed(log: seq<Effect>, m: nat, stage: Stage, kind: Kind)
    requires StageOk(log, m, stage) && NoRepeats(log) && Caused(log)
    requires match kind
             case Append => stage.Fresh?
             case Project => stage.Appended?
             case Processed => stage.Projected?
             case DeadLettered => true
    ensures NoRepeats(log + [Effect(kind, m)]) && Caused(log + [Effect(kind, m)])
  {
    var e := Effect(kind, m);
    var after := log + [e];
    assert e !in log;
    forall i, j | 0 <= i < j < |after| ensures after[i] != after[j] {
      assert after[i] == log[i] && log[i] in log;
    }
    forall k | 0 <= k < |after| && after[k].kind.Project? ensures Effect(Append, after[k].msg) in after[..k] {
      assert after[..k] == log[..k] && log[..|log|] == log;
    }
    forall k | 0 <= k < |after| && after[k].kind.Processed? ensures Effect(Project, after[k].msg) in after[..k] {
      assert after[..k] == log[..k] && log[..|log|] == log;
    }
  }

  /** The effect, if any, that a step has for its message, and what stage it needs. */
  lemma StepEffect(b: Batch, s: State, t: nat, step: Step)
    requires OnMessage(b, s, t) && ThreadStep(b, s, t, step).Some?
    requires StageOk(s.log, Current(b, s, t), s.threads[t].stage) && NoRepeats(s.log) && Caused(s.log)
    ensures var n := ThreadStep(b, s, t, step).value;
            && NoRepeats(n.log) && Caused(n.log)
            && |n.threads| == |s.threads|
            && (n.threads[t].pos == s.threads[t].pos ==> StageOk(n.log, Current(b, s, t), n.threads[t].stage))
            && (n.threads[t].pos != s.threads[t].pos ==>
                  n.threads[t].pos == s.threads[t].pos + 1 && n.threads[t].stage.Fresh?)
  {
    var m, stage := Current(b, s, t), s.threads[t].stage;
    match step
    case AppendOk(_) => EffectAllowed(s.log, m, stage, Append);
    case ProjectOk(_) => EffectAllowed(s.log, m, stage, Project);
    case ProcessOk(_) => EffectAllowed(s.log, m, stage, Processed);
    case Throw(_, applied) =>
      if applied && stage.Appended? {
        EffectAllowed(s.log, m, stage, Project);
      }
    case DlqOk(_) => EffectAllowed(s.log, m, stage, DeadLettered);
    case DlqFail(_, _) => EffectAllowed(s.log, m, stage, DeadLettered);
    case _ =>
  }

  /** Another message's stage does not notice. */
  lemma OtherStage(before: seq<Effect>, after: seq<Effect>, m: nat, other: nat, stage: Stage)
    requires Logged(before, after, m) && other != m && StageOk(before, other, stage)
    ensures StageOk(after, other, stage)
  {
    if after != before {
      assert after == before + [after[|before|]];
    }
  }

  /** The next message of a group has no effect yet. */
  lemma NextIsFresh(b: Batch, s: State, t: nat, after: seq<Effect>)
    requires BatchOk(b) && ThreadsOk(b, s) && OnMessage(b, s, t) && Logged(s.log, after, Current(b, s, t))
    requires s.threads[t].pos + 1 < |b.lists[t]|
    ensures StageOk(after, b.lists[t][s.threads[t].pos + 1], Fresh)
  {
    var list, pos := b.lists[t], s.threads[t].pos;
    assert ThreadOk(b, s.log, s.threads[t], list) && Increasing(list);
    assert list[pos] < list[pos + 1] && list[pos + 1] in list;
    forall i | 0 <= i < |after| ensures after[i].msg != list[pos + 1] {
      if i < |s.log| {
        assert after[i] == s.log[i];
      }
    }
  }

  lemma ThreadStepLogOk(b: Batch, s: State, t: nat, step: Step)
    requires BatchOk(b) && Inv(b, s) && LogOk(b, s) && OnMessage(b, s, t) && ThreadStep(b, s, t, step).Some?
    ensures LogOk(b, ThreadStep(b, s, t, step).value)
  {
    var n := ThreadStep(b, s, t, step).value;
    var m := Current(b, s, t);
    OwnFrame(b, s, t, step);
    StepEffect(b, s, t, step);
    assert m in b.lists[t];
    forall u | 0 <= u < |n.threads| && n.threads[u].pos < |b.lists[u]|
      ensures StageOk(n.log, b.lists[u][n.threads[u].pos], n.threads[u].stage)
    {
      if u != t {
        assert b.lists[u][n.threads[u].pos] in b.lists[u];
        OtherStage(s.log, n.log, m, b.lists[u][n.threads[u].pos], n.threads[u].stage);
      } else if n.threads[t].pos != s.threads[t].pos {
        NextIsFresh(b, s, t, n.log);
      }
    }
  }

  lemma StepLogOk(b: Batch, s: State, step: Step)
    requires BatchOk(b) && Inv(b, s) && LogOk(b, s) && Apply(b, s, step).Some?
    ensures LogOk(b, Apply(b, s, step).value)
  {
    match step
    case Gather =>
    case Reject =>
    case Resolve =>
    case CommitOk =>
    case CommitFail =>
    case HeartbeatOk(t) =>
    case HeartbeatFail(t) =>
    case _ => ThreadStepLogOk(b, s, step.t, step);
  }

  lemma {:induction false} RunLogOk(b: Batch, s: State, steps: seq<Step>)
    requires BatchOk(b) && Inv(b, s) && LogOk(b, s) && Run(b, s, steps).Some?
    ensures LogOk(b, Run(b, s, steps).value)
    decreases |steps|
  {
    if steps != [] {
      StepLogOk(b, s, steps[0]);
      StepKeeps(b, s, steps[0]);
      RunLogOk(b, Apply(b, s, steps[0]).value, steps[1..]);
    }
  }

  /** At any moment of any run: no effect occurs twice; a message is projected only after it was appended, and
      handed to the processor only after it was projected. */
  lemma ProcessedWasAppendedAndProjected(b: Batch, steps: seq<Step>, k: nat)
    requires BatchOk(b) && Run(b, Init(b), steps).Some? && k < |Run(b, Init(b), steps).value.log|
    ensures var log := Run(b, Init(b), steps).value.log;
            var m := log[k].msg;
            && NoRepeats(log)
            && (log[k].kind.Project? ==> exists i :: 0 <= i < k && log[i] == Effect(Append, m))
            && (log[k].kind.Processed? ==>
                  exists i, j :: 0 <= i < j < k && log[i] == Effect(Append, m) && log[j] == Effect(Project, m))
  {
    InitOk(b);
    RunLogOk(b, Init(b), steps);
    var log := Run(b, Init(b), steps).value.log;
    var m := log[k].msg;
    if log[k].kind.Processed? {
      var j :| 0 <= j < |log[..k]| && log[..k][j] == Effect(Project, m);
      var i :| 0 <= i < |log[..j]| && log[..j][i] == Effect(Append, log[j].msg);
    }
  }

  lemma {:induction false} SettlementsIn(log: seq<Effect>, m: nat)
    ensures Settlements(log, m) > 0 <==> Effect(Processed, m) in log || Effect(DeadLettered, m) in log
    ensures Effect(Processed, m) in log && Effect(DeadLettered, m) in log ==> Settlements(log, m) >= 2
  {
    if log != [] {
      var p, e := log[..|log| - 1], log[|log| - 1];
      SettlementsIn(p, m);
      assert log == p + [e];
      assert e == Effect(e.kind, e.msg);
    }
  }

  /** In a completed batch a message with a value was either processed or dead-lettered, not both and not twice; if
      processed, it was also appended and projected. A message without a value has neither. */
  lemma CompletedBatchSaidOfTheLog(b: Batch, steps: seq<Step>, m: nat)
    requires BatchOk(b) && Run(b, Init(b), steps).Some? && Run(b, Init(b), steps).value.main.Completed?
    requires m < |b.messages|
    ensures var log := Run(b, Init(b), steps).value.log;
            var processed, dead := Effect(Processed, m) in log, Effect(DeadLettered, m) in log;
            && NoRepeats(log)
            && (b.messages[m].hasValue ==> processed != dead)
            && (!b.messages[m].hasValue ==> !processed && !dead)
            && (processed ==> Effect(Append, m) in log && Effect(Project, m) in log)
  {
    InitOk(b);
    RunLogOk(b, Init(b), steps);
    CompletedBatchIsAccounted(b, steps);
    var log := Run(b, Init(b), steps).value.log;
    SettlementsIn(log, m);
    if Effect(Processed, m) in log {
      var k :| 0 <= k < |log| && log[k] == Effect(Processed, m);
      ProcessedWasAppendedAndProjected(b, steps, k);
    }
  }

  // ----- what a throw decides -----

  /** Nothing has been dead-lettered and no group is about to. */
  ghost predicate Calm(s: State) {
    && (forall i :: 0 <= i < |s.log| ==> !s.log[i].kind.DeadLettered?)
    && (forall t :: 0 <= t < |s.threads| ==> !s.threads[t].stage.Catching?)
  }

  lemma {:induction false} RunCalm(b: Batch, s: State, steps: seq<Step>)
    requires Calm(s) && Run(b, s, steps).Some? && forall k :: 0 <= k < |steps| ==> !steps[k].Throw?
    ensures Calm(Run(b, s, steps).value)
    decreases |steps|
  {
    if steps != [] {
      assert !steps[0].Throw?;
      RunCalm(b, Apply(b, s, steps[0]).value, steps[1..]);
    }
  }

  /** Without a throw no message is dead-lettered. */
  lemma OnlyThrowsAreDeadLettered(b: Batch, steps: seq<Step>, m: nat)
    requires Run(b, Init(b), steps).Some? && forall k :: 0 <= k < |steps| ==> !steps[k].Throw?
    ensures Effect(DeadLettered, m) !in Run(b, Init(b), steps).value.log
  {
    RunCalm(b, Init(b), steps);
    var log := Run(b, Init(b), steps).value.log;
    forall i | 0 <= i < |log| ensures log[i] != Effect(DeadLettered, m) {
      assert !log[i].kind.DeadLettered?;
    }
  }

  /** Group t has caught an error of its p-th message, or gone past it, and did not process it. */
  ghost predicate Doomed(b: Batch, s: State, t: nat, p: nat) {
    && t < |s.threads| == |b.lists| && p < |b.lists[t]|
    && Effect(Processed, b.lists[t][p]) !in s.log
    && (s.threads[t].pos > p || (s.threads[t].pos == p && s.threads[t].stage.Catching?))
  }

  lemma StepDoomed(b: Batch, s: State, step: Step, t: nat, p: nat)
    requires BatchOk(b) && Doomed(b, s, t, p) && Apply(b, s, step).Some?
    ensures Doomed(b, Apply(b, s, step).value, t, p)
  {
    if step.ProcessOk? {
      ProcessedIsOther(b, s, step.t, t, p);
    }
  }

  /** The message that is processed now is not the doomed one. */
  lemma ProcessedIsOther(b: Batch, s: State, u: nat, t: nat, p: nat)
    requires BatchOk(b) && Doomed(b, s, t, p) && OnMessage(b, s, u) && s.threads[u].stage.Projected?
    ensures Current(b, s, u) != b.lists[t][p]
  {
    assert Current(b, s, u) in b.lists[u] && b.lists[t][p] in b.lists[t];
    if u == t {
      assert Increasing(b.lists[t]);
      assert b.lists[t][p] < b.lists[t][s.threads[t].pos];
    }
  }

  lemma {:induction false} RunDoomed(b: Batch, s: State, steps: seq<Step>, t: nat, p: nat)
    requires BatchOk(b) && Doomed(b, s, t, p) && Run(b, s, steps).Some?
    ensures Doomed(b, Run(b, s, steps).value, t, p)
    decreases |steps|
  {
    if steps != [] {
      StepDoomed(b, s, steps[0], t, p);
      RunDoomed(b, Apply(b, s, steps[0]).value, steps[1..], t, p);
    }
  }

  /** A message whose handling has thrown is never handed to the processor with success, in any continuation. */
  lemma ThrownIsNeverProcessed(b: Batch, before: seq<Step>, t: nat, applied: bool, rest: seq<Step>)
    requires BatchOk(b) && Run(b, Init(b), before).Some?
    requires var s := Run(b, Init(b), before).value;
             Apply(b, s, Throw(t, applied)).Some? && Run(b, Apply(b, s, Throw(t, applied)).value, rest).Some?
    ensures var s := Run(b, Init(b), before).value;
            && OnMessage(b, s, t)
            && Effect(Processed, Current(b, s, t)) !in Run(b, Apply(b, s, Throw(t, applied)).value, rest).value.log
  {
    var s := Run(b, Init(b), before).value;
    InitOk(b);
    RunLogOk(b, Init(b), before);
    assert StageOk(s.log, Current(b, s, t), s.threads[t].stage);
    RunDoomed(b, Apply(b, s, Throw(t, applied)).value, rest, t, s.threads[t].pos);
  }

  // ----- a failure is final -----

  /** The steps by which a group or the batch fails. */
  predicate IsFailure(step: Step) {
    step.DlqFail? || step.HeartbeatFail? || step.CommitFail?
  }

  ghost predicate Failed(s: State) {
    SomeRejected(s) || s.main.Aborted?
  }

  lemma FailureFails(b: Batch, s: State, step: Step)
    requires IsFailure(step) && Apply(b, s, step).Some?
    ensures Failed(Apply(b, s, step).value)
  {
    var n := Apply(b, s, step).value;
    if !step.CommitFail? {
      assert n.threads[step.t].status.Rejected?;
    }
  }

  lemma {:induction false} FailureStays(b: Batch, s: State, steps: seq<Step>)
    requires Failed(s) && Run(b, s, steps).Some?
    ensures Failed(Run(b, s, steps).value)
  {
    if s.main.Aborted? {
      AbortIsFinal(b, s, steps);
    } else {
      var t :| 0 <= t < |s.threads| && s.threads[t].status.Rejected?;
      RejectionIsFinal(b, s, steps, t);
    }
  }

  lemma {:induction false} RunWithFailure(b: Batch, s: State, steps: seq<Step>, k: nat)
    requires k < |steps| && IsFailure(steps[k]) && Run(b, s, steps).Some?
    ensures Failed(Run(b, s, steps).value)
    decreases |steps|
  {
    var n := Apply(b, s, steps[0]).value;
    if k == 0 {
      FailureFails(b, s, steps[0]);
      FailureStays(b, n, steps[1..]);
    } else {
      RunWithFailure(b, n, steps[1..], k - 1);
    }
  }

  /** A run in which a dead-letter send, a heartbeat or the commit failed is never completed; if it was one of the
      first two, no offset of a message with a value is resolved, before or after. */
  lemma FailureIsFinal(b: Batch, steps: seq<Step>, k: nat)
    requires BatchOk(b) && Run(b, Init(b), steps).Some? && k < |steps| && IsFailure(steps[k])
    ensures !Run(b, Init(b), steps).value.main.Completed?
    ensures !steps[k].CommitFail? ==>
              forall m :: m in Run(b, Init(b), steps).value.resolved ==> !(m < |b.messages| && b.messages[m].hasValue)
  {
    InitOk(b);
    RunKeeps(b, Init(b), steps);
    RunWithFailure(b, Init(b), steps, k);
    if !steps[k].CommitFail? {
      GroupFailureStays(b, Init(b), steps, k);
    }
  }

  lemma {:induction false} GroupFailureStays(b: Batch, s: State, steps: seq<Step>, k: nat)
    requires k < |steps| && (steps[k].DlqFail? || steps[k].HeartbeatFail?) && Run(b, s, steps).Some?
    ensures SomeRejected(Run(b, s, steps).value)
    decreases |steps|
  {
    var n := Apply(b, s, steps[0]).value;
    if k == 0 {
      assert n.threads[steps[0].t].status.Rejected?;
      RejectionIsFinal(b, n, steps[1..], steps[0].t);
    } else {
      GroupFailureStays(b, n, steps[1..], k - 1);
    }
  }

  // ----- keys -----

  /** Two messages are in the same group exactly when they have the same key, where no key counts as the key
      "anonymous". */
  lemma SameGroupIff(messages: seq<Message>, groups: seq<Group>, m: nat, n: nat)
    requires GroupsOf(groups, messages, |messages|) && m < |messages| && n < |messages|
    ensures (exists g :: 0 <= g < |groups| && m in groups[g].indices && n in groups[g].indices) <==>
            || messages[m].key == messages[n].key
            || (messages[m].key.None? && messages[n].key == Some("anonymous"))
            || (messages[m].key == Some("anonymous") && messages[n].key.None?)
  {
    GroupsPartitionTheBatch(groups, messages);
    var lists := Lists(groups);
    assert Covered(lists, m);
    var g :| 0 <= g < |lists| && m in lists[g];
    assert n in lists[g] <==> KeyOf(messages[n]) == KeyOf(messages[m]);
  }
}
