/** One event from the producer through the consumer's intake and the event store back out of `load`. */
module EndToEnd {
  import opened Wrappers
  import opened JsStrings
  import opened JsonValues
  import opened CanonicalJson
  import opened Envelopes
  import opened Wire
  import opened Transport
  import opened Delivery
  import opened StoredEvents

  // ----- the assumptions about signatures and numbers can be met -----

  function SampleSigner(): Signer {
    Signer((text: JsStr) => [QUOTE] + text)
  }

  /** Reads integers beyond 2^53 - 1 as even ones. */
  function SampleHost(): Host {
    Host((v: Value) => if v.Str? && IsIntText(v.s) then Some(IntOf(v.s)) else if v.Num? then Some(v.n) else None,
         (n: int) => if UnsafeOdd(n) then Num(n - 1) else Num(n))
  }

  lemma AssumptionsCanBeMet()
    ensures Ideal(SampleSigner()) && HostOk(SampleHost())
  {
    var signer, host := SampleSigner(), SampleHost();
    forall a, b | signer.sign(a) == signer.sign(b) ensures a == b {
      assert a == signer.sign(a)[1..] && b == signer.sign(b)[1..];
    }
    forall n ensures host.bigOf(Str(Decimal(n))) == Some(n) {
      IntOfDecimal(n);
    }
  }

  /** A consumer that gets the produced event takes e from it. */
  predicate Delivered(signer: Signer, host: Host, schema: Schema, sent: Envelope, ns: int, trace: JsStr, e: Envelope) {
    var raw := JsonParse(host, ProducedText(sent));
    raw.Some? && Ingest(signer, host, schema, ns, trace, raw.value) == Some(e)
  }

  /** A produced event that the consumer accepted and stored is returned by `load` exactly when its creation
      time and every integer of its payload survive being read as doubles; what is returned has the
      canonical text that the producer signed. */
  lemma ProducedEventLoads(signer: Signer, host: Host, schema: Schema, ns: int, trace: JsStr, payload: Value,
                           ns': int, trace': JsStr, e: Envelope, row: Row)
    requires Ideal(signer) && HostOk(host) && SchemaOk(schema) && trace != []
    requires payload.Obj? && Wf(payload) && JsNumbers(host, payload)
    requires Delivered(signer, host, schema, Create(signer, ns, trace, payload), ns', trace', e)
    requires StoredAs(host, e, row)
    ensures LoadRow(signer, host, row).Ok? <==> host.readInt(ns) == Num(ns) && Survives(host, payload)
    ensures LoadRow(signer, host, row).Ok? ==>
              var got := LoadRow(signer, host, row).value;
              && SignedText(got.metadata, got.payload) == SignedText(NewMetadata(ns, trace), payload)
              && got.signature == Create(signer, ns, trace, payload).signature
  {
    WireRoundTrip(signer, host, schema, ns, trace, payload, ns', trace');
    IngestProduced(signer, host, schema, ns, trace, payload, ns', trace');
    DecodeKeeps(host, schema, payload);
    MetadataSurvives(host, ns, trace);
    StoreRoundTrip(signer, host, e, row);
    SurvivesRespectsEquiv(host, payload, e.payload);
    MetadataSurvivesIff(host, ns, trace);
    LoadedSignature(signer, host, row);
  }

  lemma MetadataSurvivesIff(host: Host, ns: int, trace: JsStr)
    ensures Wf(NewMetadata(ns, trace))
    ensures Survives(host, NewMetadata(ns, trace)) <==> host.readInt(ns) == Num(ns)
    ensures !HasTextTimestamp(NewMetadata(ns, trace))
  {
    MetadataKeysDiffer();
    ThreeFields(host, SCHEMA_VERSION, Str(VERSION_TEXT), CREATED_AT_NS, Big(ns), PROVENANCE_TRACE, Str(trace));
    var fs := NewMetadata(ns, trace).fields;
    SurvivesFieldsByKey(host, fs);
    assert CREATED_AT_NS in Keys(fs) && Get(fs, CREATED_AT_NS) == Big(ns);
    assert EachSurvives(host, fs) <==> Survives(host, Big(ns));
  }

  lemma LoadedSignature(signer: Signer, host: Host, row: Row)
    ensures LoadRow(signer, host, row).Ok? ==> LoadRow(signer, host, row).value.signature == row.signature
  {
  }

  // ----- an input that fails -----

  /** Whatever an envelope holds, some row is what the driver returns for it. */
  lemma SomeRowIsStored(host: Host, e: Envelope) returns (row: Row)
    requires Wf(e.metadata) && Wf(e.payload)
    ensures StoredAs(host, e, row)
  {
    row := Row(ReadValue(host, Normalize(e.metadata)), ReadValue(host, Normalize(e.payload)), e.signature);
    ColumnIsReadBack(host, e.metadata);
    ColumnIsReadBack(host, e.payload);
  }

  lemma ColumnIsReadBack(host: Host, v: Value)
    requires Wf(v)
    ensures ReadBack(host, Canonicalize(v), ReadValue(host, Normalize(v)))
  {
    ParseCanonical(v);
    EquivIsNormalEquality(Normalize(v), Normalize(v));
  }

  /** Some number or bigint in the value, at any depth, is odd and beyond 2^53. */
  predicate NamesUnsafeOdd(v: Value) {
    match v
    case Num(n) => UnsafeOdd(n)
    case Big(n) => UnsafeOdd(n)
    case Arr(items) => ItemsNameUnsafeOdd(items)
    case Obj(fields) => FieldsNameUnsafeOdd(fields)
    case _ => false
  }

  predicate ItemsNameUnsafeOdd(items: Items) {
    match items
    case INil => false
    case ICons(h, t) => NamesUnsafeOdd(h) || ItemsNameUnsafeOdd(t)
  }

  predicate FieldsNameUnsafeOdd(fs: Fields) {
    match fs
    case FNil => false
    case FCons(_, v, r) => NamesUnsafeOdd(v) || FieldsNameUnsafeOdd(r)
  }

  lemma {:induction false} UnsafeOddDoesNotSurvive(host: Host, v: Value)
    requires HostOk(host) && NamesUnsafeOdd(v)
    ensures !Survives(host, v)
    decreases v
  {
    match v
    case Arr(items) => UnsafeOddItems(host, items);
    case Obj(fields) => UnsafeOddFields(host, fields);
    case _ =>
  }

  lemma {:induction false} UnsafeOddItems(host: Host, items: Items)
    requires HostOk(host) && ItemsNameUnsafeOdd(items)
    ensures !SurvivesItems(host, items)
    decreases items
  {
    if NamesUnsafeOdd(items.head) {
      UnsafeOddDoesNotSurvive(host, items.head);
    } else {
      UnsafeOddItems(host, items.tail);
    }
  }

  lemma {:induction false} UnsafeOddFields(host: Host, fs: Fields)
    requires HostOk(host) && FieldsNameUnsafeOdd(fs)
    ensures !SurvivesFields(host, fs)
    decreases fs
  {
    if NamesUnsafeOdd(fs.val) {
      UnsafeOddDoesNotSurvive(host, fs.val);
    } else {
      UnsafeOddFields(host, fs.rest);
    }
  }

  /** A field or an item that names such an integer makes the whole name it. */
  lemma {:induction false} FieldNamesIt(fs: Fields, key: JsStr)
    requires key in Keys(fs) && NamesUnsafeOdd(Get(fs, key))
    ensures FieldsNameUnsafeOdd(fs)
  {
    if fs.key != key {
      FieldNamesIt(fs.rest, key);
    }
  }

  lemma ItemNamesIt(head: Value, tail: Items)
    requires NamesUnsafeOdd(head) || ItemsNameUnsafeOdd(tail)
    ensures NamesUnsafeOdd(Arr(ICons(head, tail)))
  {
  }

  /** On every host an event whose creation time, or any integer in whose payload, is odd and beyond 2^53 is
      stored, and can then never be loaded. */
  lemma UnsafeOddNeverLoads(signer: Signer, host: Host, ns: int, trace: JsStr, payload: Value) returns (row: Row)
    requires Ideal(signer) && HostOk(host) && Wf(payload)
    requires UnsafeOdd(ns) || NamesUnsafeOdd(payload)
    ensures StoredAs(host, Create(signer, ns, trace, payload), row)
    ensures forall r :: StoredAs(host, Create(signer, ns, trace, payload), r) ==>
              LoadRow(signer, host, r) == Err(IntegrityViolation)
  {
    var e := Create(signer, ns, trace, payload);
    MetadataSurvivesIff(host, ns, trace);
    if NamesUnsafeOdd(payload) {
      UnsafeOddDoesNotSurvive(host, payload);
    }
    row := SomeRowIsStored(host, e);
    forall r | StoredAs(host, e, r) ensures LoadRow(signer, host, r) == Err(IntegrityViolation) {
      ChangedIsViolation(signer, host, e, r);
    }
  }

  /** An event whose amount is an odd integer beyond 2^53 never loads. */
  lemma OddAmountNeverLoads(signer: Signer, host: Host, ns: int, trace: JsStr, payload: Value, n: int, row: Row)
    requires Ideal(signer) && HostOk(host) && Wf(payload) && payload.Obj? && AMOUNT in Keys(payload.fields)
    requires var amount := Get(payload.fields, AMOUNT);
             amount.Obj? && VALUE in Keys(amount.fields) && Get(amount.fields, VALUE) == Big(n)
    requires n % 2 == 1 && n > 0x1F_FFFF_FFFF_FFFF
    requires StoredAs(host, Create(signer, ns, trace, payload), row)
    ensures LoadRow(signer, host, row) == Err(IntegrityViolation)
  {
    FieldNamesIt(Get(payload.fields, AMOUNT).fields, VALUE);
    FieldNamesIt(payload.fields, AMOUNT);
    var other := UnsafeOddNeverLoads(signer, host, ns, trace, payload);
  }

  const TWO_TO_53_PLUS_ONE: int := 0x20_0000_0000_0001

  /** A concrete one: creation time 2^53 + 1 and an empty payload. */
  lemma LoadFailsAtTwoTo53PlusOne(trace: JsStr) returns (row: Row)
    ensures StoredAs(SampleHost(), Create(SampleSigner(), TWO_TO_53_PLUS_ONE, trace, Obj(FNil)), row)
    ensures LoadRow(SampleSigner(), SampleHost(), row) == Err(IntegrityViolation)
  {
    var signer, host := SampleSigner(), SampleHost();
    AssumptionsCanBeMet();
    row := UnsafeOddNeverLoads(signer, host, TWO_TO_53_PLUS_ONE, trace, Obj(FNil));
  }

  // ----- bare transactions -----

  /** A value without bigints crosses the wire as it is. */
  lemma {:induction false} PlainCrosses(v: Value)
    requires Plain(v)
    ensures WireValue(v) == v
    decreases v
  {
    match v
    case Arr(items) => PlainItemsCross(items);
    case Obj(fields) => PlainFieldsCross(fields);
    case _ =>
  }

  lemma {:induction false} PlainItemsCross(items: Items)
    requires PlainItems(items)
    ensures WireItems(items) == items
    decreases items
  {
    if items.ICons? {
      PlainCrosses(items.head);
      PlainItemsCross(items.tail);
    }
  }

  lemma {:induction false} PlainFieldsCross(fs: Fields)
    requires PlainFields(fs)
    ensures WireFields(fs) == fs
    decreases fs
  {
    if fs.FCons? {
      PlainCrosses(fs.val);
      PlainFieldsCross(fs.rest);
    }
  }

  /** A bare transaction is accepted whenever it passes the schema, and once stored it is loaded exactly when the
      consumer's clock and the integers of what it decodes to survive being doubles: unlike a produced event,
      it may have lost keys on the way without anybody noticing. */
  lemma BareTransactionLoads(signer: Signer, host: Host, schema: Schema, ns: int, trace: JsStr, raw: Value, row: Row)
    requires Ideal(signer) && HostOk(host) && SchemaOk(schema)
    requires Wf(raw) && Plain(raw) && !(HasTruthy(raw, METADATA) && HasTruthy(raw, PAYLOAD))
    requires Decode(host, schema, raw).Some?
    requires StoredAs(host, Create(signer, ns, trace, Decode(host, schema, raw).value), row)
    ensures Ingest(signer, host, schema, ns, trace, raw) ==
            Some(Create(signer, ns, trace, Decode(host, schema, raw).value))
    ensures LoadRow(signer, host, row).Ok? <==>
            host.readInt(ns) == Num(ns) && Survives(host, Decode(host, schema, raw).value)
  {
    PlainCrosses(raw);
    DecodeKeeps(host, schema, raw);
    BareTransactionAccepted(signer, host, schema, ns, trace, raw);
    MetadataSurvivesIff(host, ns, trace);
    StoreRoundTrip(signer, host, Create(signer, ns, trace, Decode(host, schema, raw).value), row);
  }
}
