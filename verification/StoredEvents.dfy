/** What `append` writes into the jsonb columns and what `load` makes of them. */
module StoredEvents {
  import opened Wrappers
  import opened JsStrings
  import opened JsonValues
  import opened CanonicalJson
  import opened Envelopes
  import opened Wire

  datatype Row = Row(metadata: Value, payload: Value, signature: JsStr)

  datatype LoadError = BadTimestamp | IntegrityViolation

  /** v is what the driver returns for a jsonb column that was written as `text`: the database keeps
      the value but not the key order, and the driver reads its text with JSON.parse. */
  ghost predicate ReadBack(host: Host, text: JsStr, v: Value) {
    Parse(text).Some? &&
    exists w :: Wf(w) && Plain(w) && Equiv(Parse(text).value, w) && v == ReadValue(host, w)
  }

  /** The row that `append` writes for an envelope, as the driver returns it. */
  ghost predicate StoredAs(host: Host, e: Envelope, row: Row) {
    && ReadBack(host, Canonicalize(e.metadata), row.metadata)
    && ReadBack(host, Canonicalize(e.payload), row.payload)
    && row.signature == e.signature
  }

  function SetField(fs: Fields, key: JsStr, val: Value): Fields
    requires key in Keys(fs)
  {
    if fs.key == key then FCons(key, val, fs.rest) else FCons(fs.key, fs.val, SetField(fs.rest, key, val))
  }

  predicate HasTextTimestamp(metadata: Value) {
    metadata.Obj? && CREATED_AT_NS in Keys(metadata.fields) && Get(metadata.fields, CREATED_AT_NS).Str?
  }

  /** `metadata.createdAtNs = BigInt(metadata.createdAtNs)` when it is a string. */
  function Revive(host: Host, metadata: Value): Option<Value> {
    if HasTextTimestamp(metadata) then
      var n :- host.bigOf(Get(metadata.fields, CREATED_AT_NS));
      Some(Obj(SetField(metadata.fields, CREATED_AT_NS, Big(n))))
    else Some(metadata)
  }

  function LoadRow(signer: Signer, host: Host, row: Row): Result<Envelope, LoadError> {
    match Revive(host, row.metadata)
    case None => Err(BadTimestamp)
    case Some(metadata) =>
      var e := Envelope(metadata, row.payload, row.signature);
      if Verify(signer, e) then Ok(e) else Err(IntegrityViolation)
  }

  /** All rows' envelopes in order, or the error of the first row that fails. */
  ghost predicate IsLoad(signer: Signer, host: Host, rows: seq<Row>, r: Result<seq<Envelope>, LoadError>) {
    match r
    case Ok(es) => |es| == |rows| && forall i :: 0 <= i < |rows| ==> LoadRow(signer, host, rows[i]) == Ok(es[i])
    case Err(e) =>
      exists i :: && 0 <= i < |rows|
                  && LoadRow(signer, host, rows[i]) == Err(e)
                  && forall j :: 0 <= j < i ==> LoadRow(signer, host, rows[j]).Ok?
  }

  /** `load` after the query. */
  method Load(signer: Signer, host: Host, rows: seq<Row>) returns (r: Result<seq<Envelope>, LoadError>)
    ensures IsLoad(signer, host, rows, r)
  {
    var envelopes: seq<Envelope> := [];
    for i := 0 to |rows|
      invariant |envelopes| == i
      invariant forall j :: 0 <= j < i ==> LoadRow(signer, host, rows[j]) == Ok(envelopes[j])
    {
      var loaded := LoadRow(signer, host, rows[i]);
      match loaded
      case Err(e) =>
        return Err(e);
      case Ok(envelope) =>
        envelopes := envelopes + [envelope];
    }
    return Ok(envelopes);
  }

  // ----- integers that survive being read as doubles -----

  predicate Survives(host: Host, v: Value) {
    match v
    case Num(n) => host.readInt(n) == Num(n)
    case Big(n) => host.readInt(n) == Num(n)
    case Arr(items) => SurvivesItems(host, items)
    case Obj(fields) => SurvivesFields(host, fields)
    case _ => true
  }

  predicate SurvivesItems(host: Host, items: Items) {
    match items
    case INil => true
    case ICons(h, t) => Survives(host, h) && SurvivesItems(host, t)
  }

  predicate SurvivesFields(host: Host, fs: Fields) {
    match fs
    case FNil => true
    case FCons(_, v, r) => Survives(host, v) && SurvivesFields(host, r)
  }

  /** Every integer leaf has magnitude at most 2^53 - 1. */
  predicate SafeIntegers(v: Value) {
    match v
    case Num(n) => -MAX_SAFE <= n <= MAX_SAFE
    case Big(n) => -MAX_SAFE <= n <= MAX_SAFE
    case Arr(items) => SafeItems(items)
    case Obj(fields) => SafeFields(fields)
    case _ => true
  }

  predicate SafeItems(items: Items) {
    match items
    case INil => true
    case ICons(h, t) => SafeIntegers(h) && SafeItems(t)
  }

  predicate SafeFields(fs: Fields) {
    match fs
    case FNil => true
    case FCons(_, v, r) => SafeIntegers(v) && SafeFields(r)
  }

  lemma SafeExamples(v: Value)
    ensures SafeIntegers(Arr(ICons(Num(9007199254740991), ICons(Big(-9007199254740991), INil))))
    ensures !SafeIntegers(Arr(ICons(Num(0), ICons(Big(9007199254740992), INil))))
    ensures !SafeIntegers(Num(-9007199254740992)) && SafeIntegers(Obj(FNil))
    ensures SafeIntegers(Obj(FCons([97], v, FCons([98], Null, FNil)))) <==> SafeIntegers(v)
  {
    var last := ICons(Big(-9007199254740991), INil);
    assert SafeItems(last) && !SafeItems(ICons(Big(9007199254740992), INil));
    assert SafeFields(FCons([98], Null, FNil));
  }

  lemma {:induction false} SafeSurvives(host: Host, v: Value)
    requires HostOk(host) && SafeIntegers(v)
    ensures Survives(host, v)
    decreases v
  {
    match v
    case Arr(items) => SafeSurvivesItems(host, items);
    case Obj(fields) => SafeSurvivesFields(host, fields);
    case _ =>
  }

  lemma {:induction false} SafeSurvivesItems(host: Host, items: Items)
    requires HostOk(host) && SafeItems(items)
    ensures SurvivesItems(host, items)
    decreases items
  {
    if items.ICons? {
      SafeSurvives(host, items.head);
      SafeSurvivesItems(host, items.tail);
    }
  }

  lemma {:induction false} SafeSurvivesFields(host: Host, fs: Fields)
    requires HostOk(host) && SafeFields(fs)
    ensures SurvivesFields(host, fs)
    decreases fs
  {
    if fs.FCons? {
      SafeSurvives(host, fs.val);
      SafeSurvivesFields(host, fs.rest);
    }
  }

  ghost predicate EachSurvives(host: Host, fs: Fields) {
    forall k :: k in Keys(fs) ==> Survives(host, Get(fs, k))
  }

  lemma {:induction false} SurvivesFieldsByKey(host: Host, fs: Fields)
    requires Distinct(fs)
    ensures SurvivesFields(host, fs) <==> EachSurvives(host, fs)
  {
    if fs.FCons? {
      SurvivesFieldsByKey(host, fs.rest);
      assert fs.key in Keys(fs) && Get(fs, fs.key) == fs.val;
      if EachSurvives(host, fs.rest) && Survives(host, fs.val) {
        forall k | k in Keys(fs) ensures Survives(host, Get(fs, k)) {
          if k != fs.key {
            assert k in Keys(fs.rest) && Get(fs, k) == Get(fs.rest, k);
          }
        }
        assert EachSurvives(host, fs);
      }
      if EachSurvives(host, fs) {
        forall k | k in Keys(fs.rest) ensures Survives(host, Get(fs.rest, k)) {
          assert k in Keys(fs) && Get(fs, k) == Get(fs.rest, k);
        }
        assert EachSurvives(host, fs.rest);
      }
    }
  }

  lemma {:induction false} ReadFieldsGet(host: Host, fs: Fields, key: JsStr)
    requires key in Keys(fs)
    ensures Get(ReadFields(host, fs), key) == ReadValue(host, Get(fs, key))
  {
    if fs.key != key {
      ReadFieldsGet(host, fs.rest, key);
    }
  }

  /** Reading a bigint-free value keeps its meaning exactly when its integers survive. */
  lemma {:induction false} ReadKeeps(host: Host, w: Value)
    requires HostOk(host) && Wf(w) && Plain(w)
    ensures Wf(ReadValue(host, w))
    ensures Equiv(w, ReadValue(host, w)) <==> Survives(host, w)
    decreases w
  {
    match w
    case Arr(items) =>
      ReadKeepsItems(host, items);
    case Obj(fields) =>
      ReadKeepsFields(host, fields);
      EquivObjects(fields, ReadFields(host, fields));
      SurvivesFieldsByKey(host, fields);
    case _ =>
  }

  lemma {:induction false} ReadKeepsItems(host: Host, items: Items)
    requires HostOk(host) && WfItems(items) && PlainItems(items)
    ensures WfItems(ReadItems(host, items))
    ensures EquivItems(items, ReadItems(host, items)) <==> SurvivesItems(host, items)
    decreases items
  {
    if items.ICons? {
      ReadKeeps(host, items.head);
      ReadKeepsItems(host, items.tail);
    }
  }

  lemma {:induction false} ReadKeepsFields(host: Host, fs: Fields)
    requires HostOk(host) && Distinct(fs) && WfFields(fs) && PlainFields(fs)
    ensures Distinct(ReadFields(host, fs)) && WfFields(ReadFields(host, fs))
    ensures forall k :: k in Keys(fs) ==>
              (Equiv(Get(fs, k), Get(ReadFields(host, fs), k)) <==> Survives(host, Get(fs, k)))
    decreases fs
  {
    if fs.FCons? {
      ReadKeeps(host, fs.val);
      ReadKeepsFields(host, fs.rest);
    }
  }

  lemma {:induction false} SurvivesRespectsEquiv(host: Host, a: Value, b: Value)
    requires Wf(a) && Wf(b) && Equiv(a, b)
    ensures Survives(host, a) <==> Survives(host, b)
    decreases Size(a)
  {
    match a
    case Arr(items) =>
      SurvivesItemsRespectsEquiv(host, items, b.items);
    case Obj(fields) =>
      forall k | k in Keys(fields)
        ensures Survives(host, Get(fields, k)) <==> Survives(host, Get(b.fields, k))
      {
        EquivFieldsAt(fields, b.fields, k);
        GetSmaller(fields, k);
        WfGet(fields, k);
        WfGet(b.fields, k);
        SurvivesRespectsEquiv(host, Get(fields, k), Get(b.fields, k));
      }
      SurvivesFieldsByKey(host, fields);
      SurvivesFieldsByKey(host, b.fields);
      assert Keys(fields) == Keys(b.fields);
      assert EachSurvives(host, fields) <==> EachSurvives(host, b.fields);
    case _ =>
  }

  lemma {:induction false} SurvivesItemsRespectsEquiv(host: Host, a: Items, b: Items)
    requires WfItems(a) && WfItems(b) && EquivItems(a, b)
    ensures SurvivesItems(host, a) <==> SurvivesItems(host, b)
    decreases ItemsSize(a)
  {
    if a.ICons? {
      SurvivesRespectsEquiv(host, a.head, b.head);
      SurvivesItemsRespectsEquiv(host, a.tail, b.tail);
    }
  }

  // ----- the store round trip -----

  /** A column comes back equivalent to what was saved exactly when every integer in it survives. */
  lemma ColumnRoundTrip(host: Host, saved: Value, v: Value)
    requires HostOk(host) && Wf(saved) && ReadBack(host, Canonicalize(saved), v)
    ensures Wf(v)
    ensures Equiv(saved, v) <==> Survives(host, saved)
    ensures HasTextTimestamp(v) <==> HasTextTimestamp(saved)
  {
    ParseCanonical(saved);
    var w :| Wf(w) && Plain(w) && Equiv(Normalize(saved), w) && v == ReadValue(host, w);
    EquivSymmetric(Normalize(saved), saved);
    EquivTransitive(saved, Normalize(saved), w);
    ReadKeeps(host, w);
    SurvivesRespectsEquiv(host, saved, w);
    if Survives(host, saved) {
      EquivTransitive(saved, w, v);
    }
    if Equiv(saved, v) {
      EquivSymmetric(saved, w);
      EquivTransitive(w, saved, v);
    }
    TextTimestampSurvives(host, saved, w);
  }

  lemma TextTimestampSurvives(host: Host, saved: Value, w: Value)
    requires HostOk(host) && Wf(saved) && Wf(w) && Plain(w) && Equiv(saved, w)
    ensures HasTextTimestamp(ReadValue(host, w)) <==> HasTextTimestamp(saved)
  {
    if saved.Obj? && CREATED_AT_NS in Keys(saved.fields) {
      EquivFieldsAt(saved.fields, w.fields, CREATED_AT_NS);
      ReadFieldsGet(host, w.fields, CREATED_AT_NS);
    }
  }

  lemma {:induction false} SetFieldKeeps(fs: Fields, key: JsStr, val: Value)
    requires Distinct(fs) && WfFields(fs) && key in Keys(fs) && Wf(val)
    ensures var r := SetField(fs, key, val);
            Distinct(r) && WfFields(r) && Keys(r) == Keys(fs) && Get(r, key) == val
  {
    if fs.key != key {
      SetFieldKeeps(fs.rest, key, val);
    }
  }

  /** An appended envelope is returned by `load` exactly when every integer in it survives the trip
      through a double and its creation time was not a string. */
  lemma StoreRoundTrip(signer: Signer, host: Host, e: Envelope, row: Row)
    requires Ideal(signer) && HostOk(host) && Wf(e.metadata) && Wf(e.payload) && Verify(signer, e)
    requires StoredAs(host, e, row)
    ensures LoadRow(signer, host, row).Ok? <==>
            Survives(host, e.metadata) && Survives(host, e.payload) && !HasTextTimestamp(e.metadata)
    ensures LoadRow(signer, host, row).Ok? ==>
              var got := LoadRow(signer, host, row).value;
              && Equiv(e.metadata, got.metadata) && Equiv(e.payload, got.payload)
              && SignedText(got.metadata, got.payload) == SignedText(e.metadata, e.payload)
  {
    ColumnRoundTrip(host, e.metadata, row.metadata);
    ColumnRoundTrip(host, e.payload, row.payload);
    var revived := Revive(host, row.metadata);
    if revived.Some? {
      if HasTextTimestamp(e.metadata) {
        RevivedDiffers(host, e.metadata, row.metadata);
      }
      SignatureBindsContent(signer, e, revived.value, row.payload);
    }
  }

  lemma RevivedDiffers(host: Host, saved: Value, v: Value)
    requires Wf(saved) && Wf(v) && HasTextTimestamp(saved) && HasTextTimestamp(v) && Revive(host, v).Some?
    ensures Wf(Revive(host, v).value) && !Equiv(saved, Revive(host, v).value)
  {
    var n := host.bigOf(Get(v.fields, CREATED_AT_NS)).value;
    SetFieldKeeps(v.fields, CREATED_AT_NS, Big(n));
    if Equiv(saved, Revive(host, v).value) {
      EquivFieldsAt(saved.fields, SetField(v.fields, CREATED_AT_NS, Big(n)), CREATED_AT_NS);
      assert false;
    }
  }

  /** An envelope whose creation time is a string never loads: `load` turns it into a bigint, which was not what was
      signed, or fails to. */
  lemma TextTimestampNeverLoads(signer: Signer, host: Host, e: Envelope, row: Row)
    requires Ideal(signer) && HostOk(host) && Wf(e.metadata) && Wf(e.payload) && Verify(signer, e)
    requires StoredAs(host, e, row)
    requires e.metadata.Obj? && CREATED_AT_NS in Keys(e.metadata.fields) && Get(e.metadata.fields, CREATED_AT_NS).Str?
    ensures LoadRow(signer, host, row) ==
            Err(if host.bigOf(Get(e.metadata.fields, CREATED_AT_NS)).Some? then IntegrityViolation else BadTimestamp)
  {
    StoreRoundTrip(signer, host, e, row);
    ParseCanonical(e.metadata);
    var w :| Wf(w) && Plain(w) && Equiv(Normalize(e.metadata), w) && row.metadata == ReadValue(host, w);
    EquivSymmetric(Normalize(e.metadata), e.metadata);
    EquivTransitive(e.metadata, Normalize(e.metadata), w);
    EquivFieldsAt(e.metadata.fields, w.fields, CREATED_AT_NS);
    ReadFieldsGet(host, w.fields, CREATED_AT_NS);
  }

  /** An envelope that does not survive raises an integrity error. */
  lemma ChangedIsViolation(signer: Signer, host: Host, e: Envelope, row: Row)
    requires Ideal(signer) && HostOk(host) && Wf(e.metadata) && Wf(e.payload) && Verify(signer, e)
    requires StoredAs(host, e, row) && !HasTextTimestamp(e.metadata)
    requires !Survives(host, e.metadata) || !Survives(host, e.payload)
    ensures LoadRow(signer, host, row) == Err(IntegrityViolation)
  {
    StoreRoundTrip(signer, host, e, row);
    ColumnRoundTrip(host, e.metadata, row.metadata);
  }

  lemma NewMetadataStores(host: Host, ns: int, trace: JsStr)
    requires HostOk(host) && -MAX_SAFE <= ns <= MAX_SAFE
    ensures var m := NewMetadata(ns, trace);
            Wf(m) && Survives(host, m) && !HasTextTimestamp(m)
  {
    MetadataKeysDiffer();
    ThreeFields(host, SCHEMA_VERSION, Str(VERSION_TEXT), CREATED_AT_NS, Big(ns), PROVENANCE_TRACE, Str(trace));
    SurvivesFieldsByKey(host, NewMetadata(ns, trace).fields);
  }

  /** With all integers at most 2^53 - 1 in magnitude, an envelope made by `create` always loads. */
  lemma SafeEnvelopeLoads(signer: Signer, host: Host, ns: int, trace: JsStr, payload: Value, row: Row)
    requires Ideal(signer) && HostOk(host) && Wf(payload)
    requires StoredAs(host, Create(signer, ns, trace, payload), row)
    requires -MAX_SAFE <= ns <= MAX_SAFE && SafeIntegers(payload)
    ensures LoadRow(signer, host, row).Ok?
  {
    NewMetadataStores(host, ns, trace);
    SafeSurvives(host, payload);
    StoreRoundTrip(signer, host, Create(signer, ns, trace, payload), row);
  }
}
