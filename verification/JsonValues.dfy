/** JavaScript values that JSON can carry, and when two of them mean the same. */
module JsonValues {
  import opened JsStrings

  /** `Num(n)` is a JavaScript number whose JSON text is the decimal integer n; every other
      finite number is kept as its text, `Lit`. `Big` is a bigint. */
  datatype Value =
    | Null
    | Bool(b: bool)
    | Str(s: JsStr)
    | Num(n: int)
    | Lit(text: JsStr)
    | Big(n: int)
    | Arr(items: Items)
    | Obj(fields: Fields)

  datatype Items = INil | ICons(head: Value, tail: Items)

  /** The own properties of an object in their enumeration order. */
  datatype Fields = FNil | FCons(key: JsStr, val: Value, rest: Fields)

  // ----- sizes, for recursion through sorted fields -----

  function Size(v: Value): nat {
    match v
    case Arr(items) => 1 + ItemsSize(items)
    case Obj(fields) => 1 + FieldsSize(fields)
    case _ => 1
  }

  function ItemsSize(items: Items): nat {
    match items
    case INil => 0
    case ICons(h, t) => 1 + Size(h) + ItemsSize(t)
  }

  function FieldsSize(fs: Fields): nat {
    match fs
    case FNil => 0
    case FCons(_, v, r) => 1 + Size(v) + FieldsSize(r)
  }

  // ----- lookup -----

  function Keys(fs: Fields): set<JsStr> {
    match fs
    case FNil => {}
    case FCons(k, _, r) => {k} + Keys(r)
  }

  function Get(fs: Fields, key: JsStr): Value
    requires key in Keys(fs)
  {
    if fs.key == key then fs.val else Get(fs.rest, key)
  }

  predicate Distinct(fs: Fields) {
    match fs
    case FNil => true
    case FCons(k, _, r) => k !in Keys(r) && Distinct(r)
  }

  /** A value as JavaScript holds it: no key twice, and `Lit` only for numbers not written as integers. */
  predicate Wf(v: Value) {
    match v
    case Lit(t) => IsLitText(t)
    case Arr(items) => WfItems(items)
    case Obj(fields) => Distinct(fields) && WfFields(fields)
    case _ => true
  }

  predicate WfItems(items: Items) {
    match items
    case INil => true
    case ICons(h, t) => Wf(h) && WfItems(t)
  }

  predicate WfFields(fs: Fields) {
    match fs
    case FNil => true
    case FCons(_, v, r) => Wf(v) && WfFields(r)
  }

  lemma {:induction false} WfGet(fs: Fields, key: JsStr)
    requires WfFields(fs) && key in Keys(fs)
    ensures Wf(Get(fs, key))
  {
    if fs.key != key {
      WfGet(fs.rest, key);
    }
  }

  /** One step of the functions that walk over fields. */
  lemma FieldsStep(key: JsStr, val: Value, rest: Fields)
    ensures Keys(FCons(key, val, rest)) == {key} + Keys(rest)
    ensures Distinct(FCons(key, val, rest)) <==> key !in Keys(rest) && Distinct(rest)
    ensures WfFields(FCons(key, val, rest)) <==> Wf(val) && WfFields(rest)
    ensures Get(FCons(key, val, rest), key) == val
    ensures forall k :: k != key && k in Keys(rest) ==> Get(FCons(key, val, rest), k) == Get(rest, k)
  {
  }

  // ----- meaning -----

  /** Equal up to the order of object keys at every depth and the identification of
      bigint n with integer number n. */
  predicate Equiv(a: Value, b: Value) {
    match a
    case Num(n) => (b.Num? || b.Big?) && b.n == n
    case Big(n) => (b.Num? || b.Big?) && b.n == n
    case Arr(items) => b.Arr? && EquivItems(items, b.items)
    case Obj(fields) => b.Obj? && Keys(fields) == Keys(b.fields) && EquivFields(fields, b.fields)
    case _ => a == b
  }

  predicate EquivItems(a: Items, b: Items) {
    match a
    case INil => b.INil?
    case ICons(h, t) => b.ICons? && Equiv(h, b.head) && EquivItems(t, b.tail)
  }

  /** Every field of a is found in b with an equivalent value. */
  predicate EquivFields(a: Fields, b: Fields) {
    match a
    case FNil => true
    case FCons(k, v, r) => k in Keys(b) && Equiv(v, Get(b, k)) && EquivFields(r, b)
  }

  lemma {:induction false} EquivFieldsAt(a: Fields, b: Fields, key: JsStr)
    requires EquivFields(a, b) && key in Keys(a)
    ensures key in Keys(b) && Equiv(Get(a, key), Get(b, key))
  {
    if a.key != key {
      EquivFieldsAt(a.rest, b, key);
    }
  }

  lemma {:induction false} EquivFieldsFrom(a: Fields, b: Fields)
    requires Distinct(a)
    requires forall k :: k in Keys(a) ==> k in Keys(b) && Equiv(Get(a, k), Get(b, k))
    ensures EquivFields(a, b)
  {
    if a.FCons? {
      assert Get(a, a.key) == a.val;
      forall k | k in Keys(a.rest)
        ensures k in Keys(b) && Equiv(Get(a.rest, k), Get(b, k))
      {
        assert Get(a, k) == Get(a.rest, k);
      }
      EquivFieldsFrom(a.rest, b);
    }
  }

  // ----- sorting -----

  /** Inserts a field before the first field whose key is not less. */
  function Insert(key: JsStr, val: Value, fs: Fields): (r: Fields)
    ensures FieldsSize(r) == 1 + Size(val) + FieldsSize(fs)
    ensures Keys(r) == {key} + Keys(fs)
  {
    if fs.FNil? || Less(key, fs.key) then FCons(key, val, fs)
    else FCons(fs.key, fs.val, Insert(key, val, fs.rest))
  }

  /** Object.keys(value).sort(), taking the values along. */
  function SortFields(fs: Fields): (r: Fields)
    ensures FieldsSize(r) == FieldsSize(fs)
    ensures Keys(r) == Keys(fs)
  {
    match fs
    case FNil => FNil
    case FCons(k, v, r) => Insert(k, v, SortFields(r))
  }

  predicate Sorted(fs: Fields) {
    fs.FCons? ==> Sorted(fs.rest) && forall k :: k in Keys(fs.rest) ==> Less(fs.key, k)
  }

  lemma {:induction false} InsertSorted(key: JsStr, val: Value, fs: Fields)
    requires Sorted(fs) && key !in Keys(fs)
    ensures Sorted(Insert(key, val, fs))
    ensures Get(Insert(key, val, fs), key) == val
    ensures forall k :: k in Keys(fs) ==> Get(Insert(key, val, fs), k) == Get(fs, k)
  {
    if fs.FCons? {
      if Less(key, fs.key) {
        forall k | k in Keys(fs) ensures Less(key, k) {
          if k != fs.key {
            LessTransitive(key, fs.key, k);
          }
        }
      } else {
        LessTotal(key, fs.key);
        InsertSorted(key, val, fs.rest);
      }
    }
  }

  lemma {:induction false} SortFieldsSorted(fs: Fields)
    requires Distinct(fs)
    ensures Sorted(SortFields(fs))
    ensures forall k :: k in Keys(fs) ==> Get(SortFields(fs), k) == Get(fs, k)
  {
    if fs.FCons? {
      SortFieldsSorted(fs.rest);
      InsertSorted(fs.key, fs.val, SortFields(fs.rest));
    }
  }

  lemma {:induction false} SortedDistinct(fs: Fields)
    requires Sorted(fs)
    ensures Distinct(fs)
  {
    if fs.FCons? {
      if fs.key in Keys(fs.rest) {
        LessIrreflexive(fs.key);
      }
      SortedDistinct(fs.rest);
    }
  }

  /** A sorted field list is determined by its keys and the value under each. */
  lemma {:induction false} SortedUnique(a: Fields, b: Fields)
    requires Sorted(a) && Sorted(b) && Keys(a) == Keys(b)
    requires forall k :: k in Keys(a) ==> Get(a, k) == Get(b, k)
    ensures a == b
  {
    assert a.FCons? ==> a.key in Keys(b);
    assert b.FCons? ==> b.key in Keys(a);
    if a.FCons? {
      if a.key != b.key {
        assert Less(a.key, b.key) && Less(b.key, a.key);
        LessTransitive(a.key, b.key, a.key);
        LessIrreflexive(a.key);
      }
      SortedDistinct(a);
      SortedDistinct(b);
      assert Keys(a.rest) == Keys(a) - {a.key};
      assert Keys(b.rest) == Keys(b) - {b.key};
      forall k | k in Keys(a.rest) ensures Get(a.rest, k) == Get(b.rest, k) {
        assert Get(a, k) == Get(b, k);
      }
      SortedUnique(a.rest, b.rest);
    }
  }

  // ----- the normal form -----

  /** Keys sorted at every depth, bigints as integer numbers. */
  function Normalize(v: Value): Value
    decreases Size(v)
  {
    match v
    case Big(n) => Num(n)
    case Arr(items) => Arr(NormalizeItems(items))
    case Obj(fields) => Obj(NormalizeFields(SortFields(fields)))
    case _ => v
  }

  function NormalizeItems(items: Items): Items
    decreases ItemsSize(items)
  {
    match items
    case INil => INil
    case ICons(h, t) => ICons(Normalize(h), NormalizeItems(t))
  }

  function NormalizeFields(fs: Fields): (r: Fields)
    ensures Keys(r) == Keys(fs)
    decreases FieldsSize(fs)
  {
    match fs
    case FNil => FNil
    case FCons(k, v, r) => FCons(k, Normalize(v), NormalizeFields(r))
  }

  lemma {:induction false} NormalizeFieldsGet(fs: Fields, key: JsStr)
    requires key in Keys(fs)
    ensures Get(NormalizeFields(fs), key) == Normalize(Get(fs, key))
  {
    if fs.key != key {
      NormalizeFieldsGet(fs.rest, key);
    }
  }

  lemma {:induction false} NormalizeFieldsSorted(fs: Fields)
    requires Sorted(fs)
    ensures Sorted(NormalizeFields(fs))
  {
    if fs.FCons? {
      NormalizeFieldsSorted(fs.rest);
    }
  }

  lemma {:induction false} GetSmaller(fs: Fields, key: JsStr)
    requires key in Keys(fs)
    ensures Size(Get(fs, key)) < FieldsSize(fs)
  {
    if fs.key != key {
      GetSmaller(fs.rest, key);
    }
  }

  /** The normal form of an object: sorted, the same keys, and the normal form under each. */
  lemma NormalFields(fs: Fields)
    requires Distinct(fs)
    ensures var n := NormalizeFields(SortFields(fs));
            && Sorted(n) && Keys(n) == Keys(fs)
            && forall k :: k in Keys(fs) ==> Get(n, k) == Normalize(Get(fs, k))
  {
    SortFieldsSorted(fs);
    NormalizeFieldsSorted(SortFields(fs));
    forall k | k in Keys(fs) ensures Get(NormalizeFields(SortFields(fs)), k) == Normalize(Get(fs, k)) {
      NormalizeFieldsGet(SortFields(fs), k);
    }
  }

  ghost predicate SameNormalFields(a: Fields, b: Fields) {
    Keys(a) == Keys(b) && forall k :: k in Keys(a) ==> k in Keys(b) && Normalize(Get(a, k)) == Normalize(Get(b, k))
  }

  /** Two objects have the same normal form exactly when their keys agree and so do the normal
      forms of the values. */
  lemma NormalObjects(a: Fields, b: Fields)
    requires Distinct(a) && Distinct(b)
    ensures NormalizeFields(SortFields(a)) == NormalizeFields(SortFields(b)) <==> SameNormalFields(a, b)
  {
    var na, nb := NormalizeFields(SortFields(a)), NormalizeFields(SortFields(b));
    NormalFields(a);
    NormalFields(b);
    if SameNormalFields(a, b) {
      SortedUnique(na, nb);
    }
    if na == nb {
      forall k | k in Keys(a) ensures k in Keys(b) && Normalize(Get(a, k)) == Normalize(Get(b, k)) {
        assert k in Keys(na);
      }
    }
  }

  /** Equivalence is equality of normal forms. */
  lemma {:induction false} EquivIsNormalEquality(a: Value, b: Value)
    requires Wf(a) && Wf(b)
    ensures Equiv(a, b) <==> Normalize(a) == Normalize(b)
    decreases Size(a), 1
  {
    if a.Arr? && b.Arr? {
      EquivItemsIsNormalEquality(a.items, b.items);
    } else if a.Obj? && b.Obj? {
      EquivObjectIsNormalEquality(a.fields, b.fields);
    }
  }

  lemma {:induction false} EquivObjectIsNormalEquality(fa: Fields, fb: Fields)
    requires Distinct(fa) && Distinct(fb) && WfFields(fa) && WfFields(fb)
    ensures Equiv(Obj(fa), Obj(fb)) <==> NormalizeFields(SortFields(fa)) == NormalizeFields(SortFields(fb))
    decreases FieldsSize(fa) + 1, 0
  {
    NormalObjects(fa, fb);
    forall k | k in Keys(fa) && k in Keys(fb)
      ensures Equiv(Get(fa, k), Get(fb, k)) <==> Normalize(Get(fa, k)) == Normalize(Get(fb, k))
    {
      GetSmaller(fa, k);
      WfGet(fa, k);
      WfGet(fb, k);
      EquivIsNormalEquality(Get(fa, k), Get(fb, k));
    }
    if Equiv(Obj(fa), Obj(fb)) {
      forall k | k in Keys(fa) ensures k in Keys(fb) && Normalize(Get(fa, k)) == Normalize(Get(fb, k)) {
        EquivFieldsAt(fa, fb, k);
      }
    }
    if SameNormalFields(fa, fb) {
      EquivFieldsFrom(fa, fb);
    }
  }

  lemma {:induction false} EquivItemsIsNormalEquality(a: Items, b: Items)
    requires WfItems(a) && WfItems(b)
    ensures EquivItems(a, b) <==> NormalizeItems(a) == NormalizeItems(b)
    decreases ItemsSize(a), 0
  {
    if a.ICons? && b.ICons? {
      EquivIsNormalEquality(a.head, b.head);
      EquivItemsIsNormalEquality(a.tail, b.tail);
    }
  }

  /** A value without bigints. */
  predicate Plain(v: Value) {
    match v
    case Big(_) => false
    case Arr(items) => PlainItems(items)
    case Obj(fields) => PlainFields(fields)
    case _ => true
  }

  predicate PlainItems(items: Items) {
    match items
    case INil => true
    case ICons(h, t) => Plain(h) && PlainItems(t)
  }

  predicate PlainFields(fs: Fields) {
    match fs
    case FNil => true
    case FCons(_, v, r) => Plain(v) && PlainFields(r)
  }

  lemma {:induction false} NormalizeWf(v: Value)
    requires Wf(v)
    ensures Wf(Normalize(v)) && Plain(Normalize(v))
    decreases Size(v)
  {
    match v
    case Arr(items) =>
      NormalizeItemsWf(items);
    case Obj(fields) =>
      SortFieldsSorted(fields);
      SortFieldsWf(fields);
      NormalizeFieldsSorted(SortFields(fields));
      SortedDistinct(NormalizeFields(SortFields(fields)));
      NormalizeFieldsWf(SortFields(fields));
    case _ =>
  }

  lemma {:induction false} NormalizeItemsWf(items: Items)
    requires WfItems(items)
    ensures WfItems(NormalizeItems(items)) && PlainItems(NormalizeItems(items))
    decreases ItemsSize(items)
  {
    if items.ICons? {
      NormalizeWf(items.head);
      NormalizeItemsWf(items.tail);
    }
  }

  lemma {:induction false} NormalizeFieldsWf(fs: Fields)
    requires WfFields(fs)
    ensures WfFields(NormalizeFields(fs)) && PlainFields(NormalizeFields(fs))
    decreases FieldsSize(fs)
  {
    if fs.FCons? {
      NormalizeWf(fs.val);
      NormalizeFieldsWf(fs.rest);
    }
  }

  lemma {:induction false} InsertWf(key: JsStr, val: Value, fs: Fields)
    requires Wf(val) && WfFields(fs)
    ensures WfFields(Insert(key, val, fs))
  {
    if fs.FCons? && !Less(key, fs.key) {
      InsertWf(key, val, fs.rest);
    }
  }

  lemma {:induction false} SortFieldsWf(fs: Fields)
    requires WfFields(fs)
    ensures WfFields(SortFields(fs))
  {
    if fs.FCons? {
      SortFieldsWf(fs.rest);
      InsertWf(fs.key, fs.val, SortFields(fs.rest));
    }
  }

  lemma {:induction false} NormalizeIdempotent(v: Value)
    requires Wf(v)
    ensures Normalize(Normalize(v)) == Normalize(v)
    decreases Size(v)
  {
    match v
    case Arr(items) =>
      NormalizeItemsIdempotent(items);
    case Obj(fields) =>
      var s := SortFields(fields);
      var n := NormalizeFields(s);
      SortFieldsSorted(fields);
      SortFieldsWf(fields);
      NormalizeFieldsSorted(s);
      SortedStays(n);
      NormalizeFieldsIdempotent(s);
    case _ =>
  }

  lemma {:induction false} NormalizeItemsIdempotent(items: Items)
    requires WfItems(items)
    ensures NormalizeItems(NormalizeItems(items)) == NormalizeItems(items)
    decreases ItemsSize(items)
  {
    if items.ICons? {
      NormalizeIdempotent(items.head);
      NormalizeItemsIdempotent(items.tail);
    }
  }

  lemma {:induction false} NormalizeFieldsIdempotent(fs: Fields)
    requires WfFields(fs)
    ensures NormalizeFields(NormalizeFields(fs)) == NormalizeFields(fs)
    decreases FieldsSize(fs)
  {
    if fs.FCons? {
      NormalizeIdempotent(fs.val);
      NormalizeFieldsIdempotent(fs.rest);
    }
  }

  lemma {:induction false} SortedStays(fs: Fields)
    requires Sorted(fs)
    ensures SortFields(fs) == fs
  {
    if fs.FCons? {
      SortedStays(fs.rest);
      if fs.rest.FCons? {
        assert fs.rest.key in Keys(fs.rest);
      }
    }
  }

  // ----- the order of keys -----

  function KeySeq(fs: Fields): (r: seq<JsStr>)
    ensures forall k :: k in r <==> k in Keys(fs)
  {
    match fs
    case FNil => []
    case FCons(k, _, r) => [k] + KeySeq(r)
  }

  ghost predicate KeysAscend(fs: Fields) {
    forall i, j :: 0 <= i < j < |KeySeq(fs)| ==> ComesFirst(KeySeq(fs)[i], KeySeq(fs)[j])
  }

  /** At every depth the keys of an object ascend. */
  ghost predicate Ascending(v: Value) {
    match v
    case Arr(items) => AscendingItems(items)
    case Obj(fields) => KeysAscend(fields) && AscendingFields(fields)
    case _ => true
  }

  ghost predicate AscendingItems(items: Items) {
    match items
    case INil => true
    case ICons(h, t) => Ascending(h) && AscendingItems(t)
  }

  ghost predicate AscendingFields(fs: Fields) {
    match fs
    case FNil => true
    case FCons(_, v, r) => Ascending(v) && AscendingFields(r)
  }

  lemma {:induction false} SortedAscends(fs: Fields)
    requires Sorted(fs)
    ensures KeysAscend(fs)
  {
    if fs.FCons? {
      SortedAscends(fs.rest);
      forall i, j | 0 <= i < j < |KeySeq(fs)| ensures ComesFirst(KeySeq(fs)[i], KeySeq(fs)[j]) {
        assert KeySeq(fs)[j] == KeySeq(fs.rest)[j - 1] && KeySeq(fs.rest)[j - 1] in KeySeq(fs.rest);
        if i == 0 {
          LessIsComesFirst(fs.key, KeySeq(fs)[j]);
        } else {
          assert KeySeq(fs)[i] == KeySeq(fs.rest)[i - 1];
        }
      }
    }
  }

  lemma {:induction false} NormalizeAscends(v: Value)
    requires Wf(v)
    ensures Ascending(Normalize(v))
    decreases Size(v)
  {
    match v
    case Arr(items) =>
      NormalizeItemsAscend(items);
    case Obj(fields) =>
      SortFieldsSorted(fields);
      SortFieldsWf(fields);
      NormalizeFieldsSorted(SortFields(fields));
      SortedAscends(NormalizeFields(SortFields(fields)));
      NormalizeFieldsAscend(SortFields(fields));
    case _ =>
  }

  lemma {:induction false} NormalizeItemsAscend(items: Items)
    requires WfItems(items)
    ensures AscendingItems(NormalizeItems(items))
    decreases ItemsSize(items)
  {
    if items.ICons? {
      NormalizeAscends(items.head);
      NormalizeItemsAscend(items.tail);
    }
  }

  lemma {:induction false} NormalizeFieldsAscend(fs: Fields)
    requires WfFields(fs)
    ensures AscendingFields(NormalizeFields(fs))
    decreases FieldsSize(fs)
  {
    if fs.FCons? {
      NormalizeAscends(fs.val);
      NormalizeFieldsAscend(fs.rest);
    }
  }
}
