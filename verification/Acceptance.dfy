/** Which transactions get through the consumer's intake, said of their fields alone. */
module Acceptance {
  import opened Wrappers
  import opened JsStrings
  import opened JsonValues
  import opened Envelopes
  import opened Wire
  import opened Transport
  import opened Delivery

  // ----- conditions on fields -----

  predicate NonEmpty(v: Value) {
    v.Str? && v.s != []
  }

  predicate IsNumber(v: Value) {
    v.Num? || v.Lit?
  }

  predicate IsCurrency(v: Value) {
    v.Str? && |v.s| == 3
  }

  predicate At(p: Value -> bool, fs: Fields, key: JsStr) {
    key in Keys(fs) && p(Get(fs, key))
  }

  predicate AmountOk(isInt: Value -> bool, v: Value) {
    v.Obj? && At(isInt, v.fields, VALUE) && At(IsCurrency, v.fields, CURRENCY)
  }

  predicate TelemetryOk(checks: Checks, v: Value) {
    && v.Obj?
    && At(IsNumber, v.fields, LATITUDE) && At(IsNumber, v.fields, LONGITUDE)
    && At(NonEmpty, v.fields, FINGERPRINT) && At(NonEmpty, v.fields, USER_AGENT)
    && IP_ADDRESS in Keys(v.fields) && Get(v.fields, IP_ADDRESS).Str? && checks.isIp(Get(v.fields, IP_ADDRESS).s)
  }

  /** Any number as coordinate; isInt says what passes for an integer. */
  predicate CommonOk(isInt: Value -> bool, checks: Checks, fs: Fields) {
    && At(NonEmpty, fs, TRANSACTION_ID) && At(NonEmpty, fs, USER_ID) && At(NonEmpty, fs, MERCHANT_ID)
    && AMOUNT in Keys(fs) && AmountOk(isInt, Get(fs, AMOUNT))
    && At(isInt, fs, TIMESTAMP)
    && TELEMETRY in Keys(fs) && TelemetryOk(checks, Get(fs, TELEMETRY))
  }

  predicate HasType(fs: Fields, kind: JsStr) {
    TYPE in Keys(fs) && Get(fs, TYPE) == Str(kind)
  }

  predicate InitiatedOk(fs: Fields) {
    HasType(fs, INITIATED)
  }

  predicate ValidatedOk(fs: Fields) {
    HasType(fs, VALIDATED) && At(NonEmpty, fs, VALIDATOR_ID)
  }

  predicate FlaggedOk(checks: Checks, fs: Fields) {
    && HasType(fs, FLAGGED) && At(NonEmpty, fs, REASON)
    && At(IsNumber, fs, RISK_SCORE) && checks.inUnitRange(Get(fs, RISK_SCORE))
  }

  predicate TransactionOk(isInt: Value -> bool, checks: Checks, v: Value) {
    && v.Obj? && CommonOk(isInt, checks, v.fields)
    && (InitiatedOk(v.fields) || ValidatedOk(v.fields) || FlaggedOk(checks, v.fields))
  }

  // ----- a test of values by schemas, field by field -----

  type Test = (Schema, Value) -> bool

  predicate FieldsPass(test: Test, shape: Shape, fs: Fields) {
    match shape
    case End => true
    case Field(k, s, rest) => k in Keys(fs) && test(s, Get(fs, k)) && FieldsPass(test, rest, fs)
  }

  lemma FieldPasses(test: Test, key: JsStr, schema: Schema, rest: Shape, fs: Fields)
    ensures FieldsPass(test, Field(key, schema, rest), fs) <==>
            key in Keys(fs) && test(schema, Get(fs, key)) && FieldsPass(test, rest, fs)
  {
  }

  /** The test does on the schemas of the leaves what it should. */
  ghost predicate Leaves(test: Test, isInt: Value -> bool, checks: Checks) {
    && (forall v :: test(NON_EMPTY, v) <==> NonEmpty(v))
    && (forall v :: test(AMOUNT_SCHEMA.shape.rest.schema, v) <==> IsCurrency(v))
    && (forall v :: test(ANY_NUMBER, v) <==> IsNumber(v))
    && (forall v :: test(BigInteger, v) <==> isInt(v))
    && (forall v :: test(Text(checks.isIp), v) <==> v.Str? && checks.isIp(v.s))
    && (forall v :: test(Number(checks.inUnitRange), v) <==> IsNumber(v) && checks.inUnitRange(v))
    && (forall v, t :: test(Literal(t), v) <==> v == Str(t))
  }

  ghost predicate Records(test: Test, isInt: Value -> bool, checks: Checks) {
    forall v ::
      && (test(AMOUNT_SCHEMA, v) <==> v.Obj? && FieldsPass(test, AMOUNT_SCHEMA.shape, v.fields))
      && (test(TelemetrySchema(checks), v) <==> v.Obj? && FieldsPass(test, TelemetrySchema(checks).shape, v.fields))
  }

  lemma AmountPasses(test: Test, isInt: Value -> bool, checks: Checks, v: Value)
    requires Leaves(test, isInt, checks) && Records(test, isInt, checks)
    ensures test(AMOUNT_SCHEMA, v) <==> AmountOk(isInt, v)
  {
    if v.Obj? {
      var last := AMOUNT_SCHEMA.shape.rest;
      assert FieldsPass(test, last, v.fields) <==> At(IsCurrency, v.fields, CURRENCY);
    }
  }

  lemma TelemetryPasses(test: Test, isInt: Value -> bool, checks: Checks, v: Value)
    requires Leaves(test, isInt, checks) && Records(test, isInt, checks)
    ensures test(TelemetrySchema(checks), v) <==> TelemetryOk(checks, v)
  {
    if v.Obj? {
      var fs := v.fields;
      var s4 := Field(USER_AGENT, NON_EMPTY, End);
      var s3 := Field(IP_ADDRESS, Text(checks.isIp), s4);
      var s2 := Field(FINGERPRINT, NON_EMPTY, s3);
      var s1 := Field(LONGITUDE, ANY_NUMBER, s2);
      FieldPasses(test, USER_AGENT, NON_EMPTY, End, fs);
      FieldPasses(test, IP_ADDRESS, Text(checks.isIp), s4, fs);
      FieldPasses(test, FINGERPRINT, NON_EMPTY, s3, fs);
      FieldPasses(test, LONGITUDE, ANY_NUMBER, s2, fs);
      FieldPasses(test, LATITUDE, ANY_NUMBER, s1, fs);
    }
  }

  /** The last three of the common fields, and then its own. */
  lemma EventEndPasses(test: Test, isInt: Value -> bool, checks: Checks, own: Shape, fs: Fields)
    requires Leaves(test, isInt, checks) && Records(test, isInt, checks)
    ensures var shape := Field(AMOUNT, AMOUNT_SCHEMA, Field(TIMESTAMP, BigInteger,
                         Field(TELEMETRY, TelemetrySchema(checks), own)));
            FieldsPass(test, shape, fs) <==>
            && AMOUNT in Keys(fs) && AmountOk(isInt, Get(fs, AMOUNT))
            && At(isInt, fs, TIMESTAMP)
            && TELEMETRY in Keys(fs) && TelemetryOk(checks, Get(fs, TELEMETRY))
            && FieldsPass(test, own, fs)
  {
    var s5 := Field(TELEMETRY, TelemetrySchema(checks), own);
    FieldPasses(test, TELEMETRY, TelemetrySchema(checks), own, fs);
    FieldPasses(test, TIMESTAMP, BigInteger, s5, fs);
    FieldPasses(test, AMOUNT, AMOUNT_SCHEMA, Field(TIMESTAMP, BigInteger, s5), fs);
    if TELEMETRY in Keys(fs) {
      TelemetryPasses(test, isInt, checks, Get(fs, TELEMETRY));
    }
    if AMOUNT in Keys(fs) {
      AmountPasses(test, isInt, checks, Get(fs, AMOUNT));
    }
  }

  lemma EventPasses(test: Test, isInt: Value -> bool, checks: Checks, own: Shape, fs: Fields)
    requires Leaves(test, isInt, checks) && Records(test, isInt, checks)
    ensures FieldsPass(test, EventShape(checks, own), fs) <==> CommonOk(isInt, checks, fs) && FieldsPass(test, own, fs)
  {
    var s3 := EventShape(checks, own).rest.rest.rest;
    EventEndPasses(test, isInt, checks, own, fs);
    FieldPasses(test, MERCHANT_ID, NON_EMPTY, s3, fs);
    FieldPasses(test, USER_ID, NON_EMPTY, Field(MERCHANT_ID, NON_EMPTY, s3), fs);
    FieldPasses(test, TRANSACTION_ID, NON_EMPTY, Field(USER_ID, NON_EMPTY, Field(MERCHANT_ID, NON_EMPTY, s3)), fs);
  }

  /** What each type adds. */
  lemma InitiatedPasses(test: Test, isInt: Value -> bool, checks: Checks, fs: Fields)
    requires Leaves(test, isInt, checks)
    ensures FieldsPass(test, Field(TYPE, Literal(INITIATED), End), fs) <==> InitiatedOk(fs)
  {
    FieldPasses(test, TYPE, Literal(INITIATED), End, fs);
  }

  lemma ValidatedPasses(test: Test, isInt: Value -> bool, checks: Checks, fs: Fields)
    requires Leaves(test, isInt, checks)
    ensures FieldsPass(test, Field(TYPE, Literal(VALIDATED), Field(VALIDATOR_ID, NON_EMPTY, End)), fs) <==>
            ValidatedOk(fs)
  {
    FieldPasses(test, VALIDATOR_ID, NON_EMPTY, End, fs);
    FieldPasses(test, TYPE, Literal(VALIDATED), Field(VALIDATOR_ID, NON_EMPTY, End), fs);
  }

  lemma FlaggedPasses(test: Test, isInt: Value -> bool, checks: Checks, fs: Fields)
    requires Leaves(test, isInt, checks)
    ensures FieldsPass(test, FlaggedOwn(checks), fs) <==> FlaggedOk(checks, fs)
  {
    var risk := Field(RISK_SCORE, Number(checks.inUnitRange), End);
    FieldPasses(test, RISK_SCORE, Number(checks.inUnitRange), End, fs);
    FieldPasses(test, REASON, NON_EMPTY, risk, fs);
    FieldPasses(test, TYPE, Literal(FLAGGED), Field(REASON, NON_EMPTY, risk), fs);
  }

  function FlaggedOwn(checks: Checks): Shape {
    Field(TYPE, Literal(FLAGGED), Field(REASON, NON_EMPTY, Field(RISK_SCORE, Number(checks.inUnitRange), End)))
  }

  /** The three shapes, on the fields of an event. */
  lemma ShapesPass(test: Test, isInt: Value -> bool, checks: Checks, fs: Fields)
    requires Leaves(test, isInt, checks) && Records(test, isInt, checks)
    ensures FieldsPass(test, InitiatedShape(checks), fs) <==> CommonOk(isInt, checks, fs) && InitiatedOk(fs)
    ensures FieldsPass(test, ValidatedShape(checks), fs) <==> CommonOk(isInt, checks, fs) && ValidatedOk(fs)
    ensures FieldsPass(test, FlaggedShape(checks), fs) <==> CommonOk(isInt, checks, fs) && FlaggedOk(checks, fs)
  {
    InitiatedPasses(test, isInt, checks, fs);
    ValidatedPasses(test, isInt, checks, fs);
    FlaggedPasses(test, isInt, checks, fs);
    EventPasses(test, isInt, checks, Field(TYPE, Literal(INITIATED), End), fs);
    EventPasses(test, isInt, checks, Field(TYPE, Literal(VALIDATED), Field(VALIDATOR_ID, NON_EMPTY, End)), fs);
    EventPasses(test, isInt, checks, FlaggedOwn(checks), fs);
  }

  lemma TypesDiffer()
    ensures INITIATED != VALIDATED && INITIATED != FLAGGED && VALIDATED != FLAGGED
  {
    assert INITIATED[11] == 73 && VALIDATED[11] == 86 && |INITIATED| == 20 && |VALIDATED| == 20 && |FLAGGED| == 18;
  }

  // ----- decoding a value -----

  function Decodes(host: Host): Test {
    (s: Schema, v: Value) => Decode(host, s, v).Some?
  }

  function BigIntOf(host: Host): Value -> bool {
    (v: Value) => host.bigOf(v).Some?
  }

  lemma {:induction false} DecodeShapeIsTest(host: Host, shape: Shape, fs: Fields)
    ensures DecodeShape(host, shape, fs).Some? <==> FieldsPass(Decodes(host), shape, fs)
    decreases shape
  {
    if shape.Field? {
      DecodeShapeIsTest(host, shape.rest, fs);
    }
  }

  lemma DecodesHonest(host: Host, checks: Checks)
    ensures Leaves(Decodes(host), BigIntOf(host), checks) && Records(Decodes(host), BigIntOf(host), checks)
  {
    forall v
      ensures Decode(host, AMOUNT_SCHEMA, v).Some? <==>
              v.Obj? && FieldsPass(Decodes(host), AMOUNT_SCHEMA.shape, v.fields)
      ensures Decode(host, TelemetrySchema(checks), v).Some? <==>
              v.Obj? && FieldsPass(Decodes(host), TelemetrySchema(checks).shape, v.fields)
    {
      if v.Obj? {
        DecodeShapeIsTest(host, AMOUNT_SCHEMA.shape, v.fields);
        DecodeShapeIsTest(host, TelemetrySchema(checks).shape, v.fields);
      }
    }
  }

  lemma ChoiceDecodes(host: Host, checks: Checks, fs: Fields)
    requires TYPE in Keys(fs)
    ensures var name := Get(fs, TYPE);
            DecodeChoice(host, TransactionSchema(checks).choices, name, fs).Some? <==>
            || (name == Str(INITIATED) && DecodeShape(host, InitiatedShape(checks), fs).Some?)
            || (name == Str(VALIDATED) && DecodeShape(host, ValidatedShape(checks), fs).Some?)
            || (name == Str(FLAGGED) && DecodeShape(host, FlaggedShape(checks), fs).Some?)
  {
    TypesDiffer();
    var c := TransactionSchema(checks).choices;
    assert DecodeChoice(host, c.rest.rest, Get(fs, TYPE), fs).Some? <==>
           Get(fs, TYPE) == Str(FLAGGED) && DecodeShape(host, FlaggedShape(checks), fs).Some?;
  }

  /** The schema accepts a value exactly when its fields meet the conditions, for each of the three types. */
  lemma SchemaAccepts(host: Host, checks: Checks, v: Value)
    ensures Decode(host, TransactionSchema(checks), v).Some? <==> TransactionOk(BigIntOf(host), checks, v)
  {
    if v.Obj? && TYPE in Keys(v.fields) {
      var fs := v.fields;
      DecodesHonest(host, checks);
      ShapesPass(Decodes(host), BigIntOf(host), checks, fs);
      DecodeShapeIsTest(host, InitiatedShape(checks), fs);
      DecodeShapeIsTest(host, ValidatedShape(checks), fs);
      DecodeShapeIsTest(host, FlaggedShape(checks), fs);
      ChoiceDecodes(host, checks, fs);
    }
  }

  /** The key is absent, or its value is one of the four that JSON can carry and JavaScript takes for false. */
  predicate MissingOrFalse(fs: Fields, key: JsStr) {
    key !in Keys(fs) || Get(fs, key) in {Null, Bool(false), Str([]), Num(0)}
  }

  /** A message that is not an envelope: metadata or payload is missing. */
  predicate IsBare(raw: Value) {
    !raw.Obj? || MissingOrFalse(raw.fields, METADATA) || MissingOrFalse(raw.fields, PAYLOAD)
  }

  lemma IsBareIff(raw: Value)
    requires Plain(raw)
    ensures IsBare(raw) <==> !(HasTruthy(raw, METADATA) && HasTruthy(raw, PAYLOAD))
  {
    if raw.Obj? {
      if METADATA in Keys(raw.fields) {
        PlainGet(raw.fields, METADATA);
      }
      if PAYLOAD in Keys(raw.fields) {
        PlainGet(raw.fields, PAYLOAD);
      }
    }
  }

  lemma {:induction false} PlainGet(fs: Fields, key: JsStr)
    requires PlainFields(fs) && key in Keys(fs)
    ensures Plain(Get(fs, key))
  {
    if fs.key != key {
      PlainGet(fs.rest, key);
    }
  }

  /** A bare transaction gets through exactly when its fields meet the conditions. */
  lemma BareAcceptedIff(signer: Signer, host: Host, checks: Checks, ns: int, trace: JsStr, raw: Value)
    requires Plain(raw) && IsBare(raw)
    ensures Ingest(signer, host, TransactionSchema(checks), ns, trace, raw).Some? <==>
            TransactionOk(BigIntOf(host), checks, raw)
  {
    IsBareIff(raw);
    SchemaAccepts(host, checks, raw);
    BareTransactionAccepted(signer, host, TransactionSchema(checks), ns, trace, raw);
  }

  /** Anything else gets through only with a signature that verifies over what it decodes to. */
  lemma EnvelopeMustVerify(signer: Signer, host: Host, checks: Checks, ns: int, trace: JsStr, raw: Value)
    requires Plain(raw) && !IsBare(raw)
    requires Ingest(signer, host, TransactionSchema(checks), ns, trace, raw).Some?
    ensures SIGNATURE in Keys(raw.fields)
    ensures var e := Ingest(signer, host, TransactionSchema(checks), ns, trace, raw).value;
            && Get(raw.fields, SIGNATURE) == Str(e.signature)
            && e.signature == signer.sign(SignedText(e.metadata, e.payload))
            && Decode(host, TransactionSchema(checks), Get(raw.fields, PAYLOAD)) == Some(e.payload)
            && Decode(host, METADATA_SCHEMA, Get(raw.fields, METADATA)) == Some(e.metadata)
  {
    IsBareIff(raw);
  }

  // ----- a produced transaction -----

  /** A bigint, or a number that BigInt() takes to the same integer, as it does up to 2^53 - 1. */
  function JsInteger(host: Host): Value -> bool {
    (x: Value) => x.Big? || (x.Num? && host.bigOf(x) == Some(x.n))
  }

  /** Decodes after the wire, with the declared leaf types before it. */
  function Passes(host: Host): Test {
    (s: Schema, x: Value) => Decode(host, s, WireValue(x)).Some? && Typed(host, s, x)
  }

  lemma {:induction false} WireShapeIsTest(host: Host, shape: Shape, fs: Fields)
    ensures DecodeShape(host, shape, WireFields(fs)).Some? && TypedShape(host, shape, fs) <==>
            FieldsPass(Passes(host), shape, fs)
    decreases shape
  {
    if shape.Field? {
      WireShapeIsTest(host, shape.rest, fs);
      if shape.key in Keys(fs) {
        WireFieldsGet(fs, shape.key);
      }
    }
  }

  lemma PassesHonest(host: Host, checks: Checks)
    requires HostOk(host)
    ensures Leaves(Passes(host), JsInteger(host), checks) && Records(Passes(host), JsInteger(host), checks)
  {
    forall x
      ensures Passes(host)(AMOUNT_SCHEMA, x) <==> x.Obj? && FieldsPass(Passes(host), AMOUNT_SCHEMA.shape, x.fields)
      ensures Passes(host)(TelemetrySchema(checks), x) <==>
              x.Obj? && FieldsPass(Passes(host), TelemetrySchema(checks).shape, x.fields)
    {
      if x.Obj? {
        WireShapeIsTest(host, AMOUNT_SCHEMA.shape, x.fields);
        WireShapeIsTest(host, TelemetrySchema(checks).shape, x.fields);
      }
    }
    PassesLeaves(host, checks);
  }

  lemma PassesText(host: Host, accepts: JsStr -> bool, x: Value)
    ensures Passes(host)(Text(accepts), x) <==> x.Str? && accepts(x.s)
  {
  }

  lemma PassesNumber(host: Host, allows: Value -> bool, x: Value)
    ensures Passes(host)(Number(allows), x) <==> IsNumber(x) && allows(x)
  {
  }

  lemma PassesInteger(host: Host, x: Value)
    requires HostOk(host)
    ensures Passes(host)(BigInteger, x) <==> JsInteger(host)(x)
  {
    if x.Big? {
      assert host.bigOf(Str(Decimal(x.n))) == Some(x.n);
    }
  }

  lemma PassesLiteral(host: Host, text: JsStr, x: Value)
    ensures Passes(host)(Literal(text), x) <==> x == Str(text)
  {
  }

  lemma PassesLeaves(host: Host, checks: Checks)
    requires HostOk(host)
    ensures Leaves(Passes(host), JsInteger(host), checks)
  {
    forall v ensures Passes(host)(NON_EMPTY, v) <==> NonEmpty(v) {
      PassesText(host, NON_EMPTY.accepts, v);
    }
    forall v ensures Passes(host)(AMOUNT_SCHEMA.shape.rest.schema, v) <==> IsCurrency(v) {
      PassesText(host, AMOUNT_SCHEMA.shape.rest.schema.accepts, v);
    }
    forall v ensures Passes(host)(ANY_NUMBER, v) <==> IsNumber(v) {
      PassesNumber(host, ANY_NUMBER.allows, v);
    }
    forall v ensures Passes(host)(BigInteger, v) <==> JsInteger(host)(v) {
      PassesInteger(host, v);
    }
    forall v ensures Passes(host)(Text(checks.isIp), v) <==> v.Str? && checks.isIp(v.s) {
      PassesText(host, checks.isIp, v);
    }
    forall v ensures Passes(host)(Number(checks.inUnitRange), v) <==> IsNumber(v) && checks.inUnitRange(v) {
      PassesNumber(host, checks.inUnitRange, v);
    }
    forall v, t ensures Passes(host)(Literal(t), v) <==> v == Str(t) {
      PassesLiteral(host, t, v);
    }
  }

  lemma PassesChoice(host: Host, checks: Checks, fs: Fields)
    requires TYPE in Keys(fs)
    ensures var name := WireValue(Get(fs, TYPE));
            var choices := TransactionSchema(checks).choices;
            Passes(host)(TransactionSchema(checks), Obj(fs)) <==>
            DecodeChoice(host, choices, name, WireFields(fs)).Some? && TypedChoice(host, choices, name, fs)
  {
    WireFieldsGet(fs, TYPE);
  }

  lemma ChoicePasses(host: Host, checks: Checks, fs: Fields)
    requires TYPE in Keys(fs)
    ensures Passes(host)(TransactionSchema(checks), Obj(fs)) <==>
            var name := WireValue(Get(fs, TYPE));
            || (name == Str(INITIATED) && FieldsPass(Passes(host), InitiatedShape(checks), fs))
            || (name == Str(VALIDATED) && FieldsPass(Passes(host), ValidatedShape(checks), fs))
            || (name == Str(FLAGGED) && FieldsPass(Passes(host), FlaggedShape(checks), fs))
  {
    var name := WireValue(Get(fs, TYPE));
    PassesChoice(host, checks, fs);
    WireFieldsGet(fs, TYPE);
    ChoiceDecodes(host, checks, WireFields(fs));
    ChoiceTyped(host, checks, name, fs);
    TypesDiffer();
    ShapesAreTests(host, checks, fs);
  }

  lemma ShapesAreTests(host: Host, checks: Checks, fs: Fields)
    ensures DecodeShape(host, InitiatedShape(checks), WireFields(fs)).Some? &&
            TypedShape(host, InitiatedShape(checks), fs)
            <==> FieldsPass(Passes(host), InitiatedShape(checks), fs)
    ensures DecodeShape(host, ValidatedShape(checks), WireFields(fs)).Some? &&
            TypedShape(host, ValidatedShape(checks), fs)
            <==> FieldsPass(Passes(host), ValidatedShape(checks), fs)
    ensures DecodeShape(host, FlaggedShape(checks), WireFields(fs)).Some? && TypedShape(host, FlaggedShape(checks), fs)
            <==> FieldsPass(Passes(host), FlaggedShape(checks), fs)
  {
    WireShapeIsTest(host, InitiatedShape(checks), fs);
    WireShapeIsTest(host, ValidatedShape(checks), fs);
    WireShapeIsTest(host, FlaggedShape(checks), fs);
  }

  lemma ChoiceTyped(host: Host, checks: Checks, name: Value, fs: Fields)
    ensures TypedChoice(host, TransactionSchema(checks).choices, name, fs) <==>
            || (name == Str(INITIATED) && TypedShape(host, InitiatedShape(checks), fs))
            || (name == Str(VALIDATED) && TypedShape(host, ValidatedShape(checks), fs))
            || (name == Str(FLAGGED) && TypedShape(host, FlaggedShape(checks), fs))
  {
    TypesDiffer();
    var c := TransactionSchema(checks).choices;
    assert TypedChoice(host, c.rest.rest, name, fs) <==>
           name == Str(FLAGGED) && TypedShape(host, FlaggedShape(checks), fs);
  }

  /** A produced payload decodes with its declared types exactly when its fields meet the conditions. */
  lemma PassesIff(host: Host, checks: Checks, payload: Value)
    requires HostOk(host)
    ensures Passes(host)(TransactionSchema(checks), payload) <==> TransactionOk(JsInteger(host), checks, payload)
  {
    if payload.Obj? && TYPE in Keys(payload.fields) {
      PassesHonest(host, checks);
      ShapesPass(Passes(host), JsInteger(host), checks, payload.fields);
      ChoicePasses(host, checks, payload.fields);
    }
  }

  // ----- keys that no schema lists -----

  const COMMON_KEYS: set<JsStr> := {TRANSACTION_ID, USER_ID, MERCHANT_ID, AMOUNT, TIMESTAMP, TELEMETRY}

  const TELEMETRY_KEYS: set<JsStr> := {LATITUDE, LONGITUDE, FINGERPRINT, IP_ADDRESS, USER_AGENT}

  function OwnKeys(fs: Fields): set<JsStr> {
    if HasType(fs, INITIATED) then {TYPE}
    else if HasType(fs, VALIDATED) then {TYPE, VALIDATOR_ID}
    else {TYPE, REASON, RISK_SCORE}
  }

  /** No object in the transaction has a key beyond those of its type. */
  predicate OnlyListedKeys(x: Value) {
    x.Obj? && Keys(x.fields) <= COMMON_KEYS + OwnKeys(x.fields)
    && (AMOUNT in Keys(x.fields) && Get(x.fields, AMOUNT).Obj? ==>
          Keys(Get(x.fields, AMOUNT).fields) <= {VALUE, CURRENCY})
    && (TELEMETRY in Keys(x.fields) && Get(x.fields, TELEMETRY).Obj? ==>
          Keys(Get(x.fields, TELEMETRY).fields) <= TELEMETRY_KEYS)
  }

  /** A leaf hides no key. */
  lemma LeafExact(key: JsStr, schema: Schema, rest: Shape, fs: Fields)
    requires key in Keys(fs) && !schema.Record? && !schema.OneOf?
    ensures NoExtraInShape(Field(key, schema, rest), fs) <==> NoExtraInShape(rest, fs)
  {
  }

  lemma EndExact(fs: Fields)
    ensures NoExtraInShape(End, fs)
  {
  }

  lemma RecordKeys(checks: Checks)
    ensures ShapeKeys(AMOUNT_SCHEMA.shape) == {VALUE, CURRENCY}
    ensures ShapeKeys(TelemetrySchema(checks).shape) == TELEMETRY_KEYS
  {
    var s4 := Field(USER_AGENT, NON_EMPTY, End);
    var s3 := Field(IP_ADDRESS, Text(checks.isIp), s4);
    var s2 := Field(FINGERPRINT, NON_EMPTY, s3);
    assert ShapeKeys(s4) == {USER_AGENT};
    assert ShapeKeys(s3) == {IP_ADDRESS, USER_AGENT};
    assert ShapeKeys(s2) == {FINGERPRINT, IP_ADDRESS, USER_AGENT};
    assert ShapeKeys(Field(LONGITUDE, ANY_NUMBER, s2)) == {LONGITUDE, FINGERPRINT, IP_ADDRESS, USER_AGENT};
    assert ShapeKeys(AMOUNT_SCHEMA.shape.rest) == {CURRENCY};
  }

  lemma AmountExact(checks: Checks, isInt: Value -> bool, v: Value)
    requires AmountOk(isInt, v)
    ensures NoExtraKeys(AMOUNT_SCHEMA, v) <==> Keys(v.fields) <= {VALUE, CURRENCY}
  {
    RecordKeys(checks);
    var last := AMOUNT_SCHEMA.shape.rest;
    EndExact(v.fields);
    LeafExact(CURRENCY, last.schema, End, v.fields);
    LeafExact(VALUE, BigInteger, last, v.fields);
  }

  lemma TelemetryExact(checks: Checks, v: Value)
    requires TelemetryOk(checks, v)
    ensures NoExtraKeys(TelemetrySchema(checks), v) <==> Keys(v.fields) <= TELEMETRY_KEYS
  {
    RecordKeys(checks);
    var fs := v.fields;
    var s4 := Field(USER_AGENT, NON_EMPTY, End);
    var s3 := Field(IP_ADDRESS, Text(checks.isIp), s4);
    var s2 := Field(FINGERPRINT, NON_EMPTY, s3);
    EndExact(fs);
    LeafExact(USER_AGENT, NON_EMPTY, End, fs);
    LeafExact(IP_ADDRESS, Text(checks.isIp), s4, fs);
    LeafExact(FINGERPRINT, NON_EMPTY, s3, fs);
    LeafExact(LONGITUDE, ANY_NUMBER, s2, fs);
    LeafExact(LATITUDE, ANY_NUMBER, Field(LONGITUDE, ANY_NUMBER, s2), fs);
  }

  /** Among the common fields only the amount and the telemetry can hide a key. */
  lemma CommonExact(isInt: Value -> bool, checks: Checks, own: Shape, fs: Fields)
    requires CommonOk(isInt, checks, fs) && NoExtraInShape(own, fs)
    ensures NoExtraInShape(EventShape(checks, own), fs) <==>
            && Keys(Get(fs, AMOUNT).fields) <= {VALUE, CURRENCY}
            && Keys(Get(fs, TELEMETRY).fields) <= TELEMETRY_KEYS
  {
    AmountExact(checks, isInt, Get(fs, AMOUNT));
    TelemetryExact(checks, Get(fs, TELEMETRY));
    var s5 := Field(TELEMETRY, TelemetrySchema(checks), own);
    var s4 := Field(TIMESTAMP, BigInteger, s5);
    var s3 := Field(AMOUNT, AMOUNT_SCHEMA, s4);
    var s2 := Field(MERCHANT_ID, NON_EMPTY, s3);
    LeafExact(TIMESTAMP, BigInteger, s5, fs);
    LeafExact(MERCHANT_ID, NON_EMPTY, s3, fs);
    LeafExact(USER_ID, NON_EMPTY, s2, fs);
    LeafExact(TRANSACTION_ID, NON_EMPTY, Field(USER_ID, NON_EMPTY, s2), fs);
  }

  lemma OwnExact(checks: Checks, fs: Fields)
    ensures InitiatedOk(fs) ==> NoExtraInShape(Field(TYPE, Literal(INITIATED), End), fs)
    ensures ValidatedOk(fs) ==>
              NoExtraInShape(Field(TYPE, Literal(VALIDATED), Field(VALIDATOR_ID, NON_EMPTY, End)), fs)
    ensures FlaggedOk(checks, fs) ==> NoExtraInShape(FlaggedOwn(checks), fs)
  {
    EndExact(fs);
    if InitiatedOk(fs) {
      LeafExact(TYPE, Literal(INITIATED), End, fs);
    }
    var validator := Field(VALIDATOR_ID, NON_EMPTY, End);
    if ValidatedOk(fs) {
      LeafExact(VALIDATOR_ID, NON_EMPTY, End, fs);
      LeafExact(TYPE, Literal(VALIDATED), validator, fs);
    }
    var risk := Field(RISK_SCORE, Number(checks.inUnitRange), End);
    if FlaggedOk(checks, fs) {
      LeafExact(RISK_SCORE, Number(checks.inUnitRange), End, fs);
      LeafExact(REASON, NON_EMPTY, risk, fs);
      LeafExact(TYPE, Literal(FLAGGED), Field(REASON, NON_EMPTY, risk), fs);
    }
  }

  lemma TransactionKeys(checks: Checks)
    ensures ShapeKeys(InitiatedShape(checks)) == COMMON_KEYS + {TYPE}
    ensures ShapeKeys(ValidatedShape(checks)) == COMMON_KEYS + {TYPE, VALIDATOR_ID}
    ensures ShapeKeys(FlaggedShape(checks)) == COMMON_KEYS + {TYPE, REASON, RISK_SCORE}
  {
    InitiatedShapeOk(checks);
    ValidatedShapeOk(checks);
    FlaggedShapeOk(checks);
  }

  lemma ChoiceExact(checks: Checks, name: Value, fs: Fields)
    ensures NoExtraInChoice(TransactionSchema(checks).choices, name, fs) <==>
            || (name == Str(INITIATED) && Keys(fs) <= ShapeKeys(InitiatedShape(checks)) &&
                NoExtraInShape(InitiatedShape(checks), fs))
            || (name == Str(VALIDATED) && Keys(fs) <= ShapeKeys(ValidatedShape(checks)) &&
                NoExtraInShape(ValidatedShape(checks), fs))
            || (name == Str(FLAGGED) && Keys(fs) <= ShapeKeys(FlaggedShape(checks)) &&
                NoExtraInShape(FlaggedShape(checks), fs))
  {
    TypesDiffer();
    var c := TransactionSchema(checks).choices;
    assert NoExtraInChoice(c.rest.rest, name, fs) <==>
           name == Str(FLAGGED) && Keys(fs) <= ShapeKeys(FlaggedShape(checks)) &&
           NoExtraInShape(FlaggedShape(checks), fs);
  }

  /** A transaction that meets the conditions loses no key exactly when it has only the listed ones. */
  lemma NothingDroppedIff(isInt: Value -> bool, checks: Checks, x: Value)
    requires TransactionOk(isInt, checks, x)
    ensures NoExtraKeys(TransactionSchema(checks), x) <==> OnlyListedKeys(x)
  {
    var fs := x.fields;
    TypesDiffer();
    TransactionKeys(checks);
    OwnExact(checks, fs);
    ChoiceExact(checks, WireValue(Get(fs, TYPE)), fs);
    if InitiatedOk(fs) {
      CommonExact(isInt, checks, Field(TYPE, Literal(INITIATED), End), fs);
    } else if ValidatedOk(fs) {
      CommonExact(isInt, checks, Field(TYPE, Literal(VALIDATED), Field(VALIDATOR_ID, NON_EMPTY, End)), fs);
    } else {
      CommonExact(isInt, checks, FlaggedOwn(checks), fs);
    }
  }

  /** A produced transaction gets through intake exactly when its fields meet the conditions, with integers as
      amount and timestamp, and it has only the listed keys; what comes out carries the same content. */
  lemma ProducedAcceptedIff(signer: Signer, host: Host, checks: Checks, ns: int, trace: JsStr, payload: Value,
                            ns': int, trace': JsStr)
    requires Ideal(signer) && HostOk(host) && trace != []
    requires payload.Obj? && Wf(payload) && JsNumbers(host, payload)
    ensures var raw := JsonParse(host, ProducedText(Create(signer, ns, trace, payload)));
            && raw.Some?
            && var got := Ingest(signer, host, TransactionSchema(checks), ns', trace', raw.value);
               && (got.Some? <==> TransactionOk(JsInteger(host), checks, payload) && OnlyListedKeys(payload))
               && (got.Some? ==> got.value.metadata == NewMetadata(ns, trace) && Equiv(payload, got.value.payload))
  {
    TransactionSchemaOk(checks);
    WireRoundTrip(signer, host, TransactionSchema(checks), ns, trace, payload, ns', trace');
    PassesIff(host, checks, payload);
    if TransactionOk(JsInteger(host), checks, payload) {
      NothingDroppedIff(JsInteger(host), checks, payload);
    }
  }

  // ----- an ordinary event -----

  const LATITUDE_TEXT: JsStr := [52, 48, 46, 55]

  /** A place at latitude 40.7. */
  function SampleTelemetry(ip: JsStr): Value {
    Obj(FCons(LATITUDE, Lit(LATITUDE_TEXT),
        FCons(LONGITUDE, Num(-74),
        FCons(FINGERPRINT, Str([102]),
        FCons(IP_ADDRESS, Str(ip),
        FCons(USER_AGENT, Str([117]), FNil))))))
  }

  function SampleAmount(): Value {
    Obj(FCons(VALUE, Big(100), FCons(CURRENCY, Str([69, 85, 82]), FNil)))
  }

  function SampleEvent(ip: JsStr): Value {
    Obj(FCons(TRANSACTION_ID, Str([116]),
        FCons(USER_ID, Str([117]),
        FCons(MERCHANT_ID, Str([109]),
        SampleEnd(ip)))))
  }

  lemma SampleAmountOk(isInt: Value -> bool)
    requires isInt(Big(100))
    ensures AmountOk(isInt, SampleAmount()) && Keys(SampleAmount().fields) == {VALUE, CURRENCY} && Wf(SampleAmount())
  {
    KeyUnits();
    TwoKeys(VALUE, Big(100), CURRENCY, Str([69, 85, 82]));
  }

  lemma SampleTelemetryOk(checks: Checks, ip: JsStr)
    requires checks.isIp(ip)
    ensures TelemetryOk(checks, SampleTelemetry(ip)) && Keys(SampleTelemetry(ip).fields) == TELEMETRY_KEYS
  {
    KeyUnits();
    var f4 := FCons(USER_AGENT, Str([117]), FNil);
    var f3 := FCons(IP_ADDRESS, Str(ip), f4);
    var f2 := FCons(FINGERPRINT, Str([102]), f3);
    var f1 := FCons(LONGITUDE, Num(-74), f2);
    FieldsStep(USER_AGENT, Str([117]), FNil);
    FieldsStep(IP_ADDRESS, Str(ip), f4);
    FieldsStep(FINGERPRINT, Str([102]), f3);
    FieldsStep(LONGITUDE, Num(-74), f2);
    FieldsStep(LATITUDE, Lit(LATITUDE_TEXT), f1);
  }

  lemma SampleEventFields(ip: JsStr)
    ensures var fs := SampleEvent(ip).fields;
            && Keys(fs) == COMMON_KEYS + {TYPE}
            && Get(fs, TRANSACTION_ID) == Str([116]) && Get(fs, USER_ID) == Str([117]) &&
               Get(fs, MERCHANT_ID) == Str([109])
            && Get(fs, AMOUNT) == SampleAmount() && Get(fs, TIMESTAMP) == Big(1)
            && Get(fs, TELEMETRY) == SampleTelemetry(ip) && Get(fs, TYPE) == Str(INITIATED)
  {
    EventKeysDiffer();
    OwnKeysDiffer(TYPE);
    var f6 := FCons(TYPE, Str(INITIATED), FNil);
    var f5 := FCons(TELEMETRY, SampleTelemetry(ip), f6);
    var f4 := FCons(TIMESTAMP, Big(1), f5);
    var f3 := FCons(AMOUNT, SampleAmount(), f4);
    var f2 := FCons(MERCHANT_ID, Str([109]), f3);
    var f1 := FCons(USER_ID, Str([117]), f2);
    FieldsStep(TYPE, Str(INITIATED), FNil);
    FieldsStep(TELEMETRY, SampleTelemetry(ip), f6);
    FieldsStep(TIMESTAMP, Big(1), f5);
    FieldsStep(AMOUNT, SampleAmount(), f4);
    FieldsStep(MERCHANT_ID, Str([109]), f3);
    FieldsStep(USER_ID, Str([117]), f2);
    FieldsStep(TRANSACTION_ID, Str([116]), f1);
  }

  /** An ordinary event meets the conditions, a fractional coordinate included. */
  lemma SampleEventOk(isInt: Value -> bool, checks: Checks, ip: JsStr)
    requires checks.isIp(ip) && isInt(Big(100)) && isInt(Big(1))
    ensures TransactionOk(isInt, checks, SampleEvent(ip)) && OnlyListedKeys(SampleEvent(ip))
  {
    SampleEventFields(ip);
    SampleAmountOk(isInt);
    SampleTelemetryOk(checks, ip);
  }

  /** The last four fields of the sample. */
  function SampleEnd(ip: JsStr): Fields {
    FCons(AMOUNT, SampleAmount(),
    FCons(TIMESTAMP, Big(1),
    FCons(TELEMETRY, SampleTelemetry(ip),
    FCons(TYPE, Str(INITIATED), FNil))))
  }

  lemma SampleEndNumbers(host: Host, ip: JsStr)
    requires HostOk(host)
    ensures Keys(SampleEnd(ip)) == {AMOUNT, TIMESTAMP, TELEMETRY, TYPE} && Distinct(SampleEnd(ip))
    ensures WfFields(SampleEnd(ip)) && JsNumbersFields(host, SampleEnd(ip))
  {
    NumberTexts();
    SamplePartsNumbers(host, ip);
    EventKeysDiffer();
    OwnKeysDiffer(TYPE);
    var f6 := FCons(TYPE, Str(INITIATED), FNil);
    var f5 := FCons(TELEMETRY, SampleTelemetry(ip), f6);
    NumbersAndStep(host, TYPE, Str(INITIATED), FNil);
    NumbersAndStep(host, TELEMETRY, SampleTelemetry(ip), f6);
    NumbersAndStep(host, TIMESTAMP, Big(1), f5);
    NumbersAndStep(host, AMOUNT, SampleAmount(), FCons(TIMESTAMP, Big(1), f5));
  }

  lemma SampleEventNumbers(host: Host, ip: JsStr)
    requires HostOk(host)
    ensures Wf(SampleEvent(ip)) && JsNumbers(host, SampleEvent(ip))
  {
    SampleEndNumbers(host, ip);
    EventKeysDiffer();
    OwnKeysDiffer(TYPE);
    var f3 := SampleEnd(ip);
    var f2 := FCons(MERCHANT_ID, Str([109]), f3);
    var f1 := FCons(USER_ID, Str([117]), f2);
    NumbersAndStep(host, MERCHANT_ID, Str([109]), f3);
    NumbersAndStep(host, USER_ID, Str([117]), f2);
    NumbersAndStep(host, TRANSACTION_ID, Str([116]), f1);
  }

  lemma NumbersAndStep(host: Host, key: JsStr, val: Value, rest: Fields)
    ensures Keys(FCons(key, val, rest)) == {key} + Keys(rest)
    ensures Distinct(FCons(key, val, rest)) <==> key !in Keys(rest) && Distinct(rest)
    ensures WfFields(FCons(key, val, rest)) <==> Wf(val) && WfFields(rest)
    ensures JsNumbersFields(host, FCons(key, val, rest)) <==> JsNumbers(host, val) && JsNumbersFields(host, rest)
  {
  }

  lemma SamplePartsNumbers(host: Host, ip: JsStr)
    requires HostOk(host) && IsLitText(LATITUDE_TEXT)
    ensures Wf(SampleAmount()) && JsNumbers(host, SampleAmount())
    ensures Wf(SampleTelemetry(ip)) && JsNumbers(host, SampleTelemetry(ip))
  {
    KeyUnits();
    TwoFields(host, VALUE, Big(100), CURRENCY, Str([69, 85, 82]));
    var f4 := FCons(USER_AGENT, Str([117]), FNil);
    var f3 := FCons(IP_ADDRESS, Str(ip), f4);
    var f2 := FCons(FINGERPRINT, Str([102]), f3);
    var f1 := FCons(LONGITUDE, Num(-74), f2);
    NumbersAndStep(host, USER_AGENT, Str([117]), FNil);
    NumbersAndStep(host, IP_ADDRESS, Str(ip), f4);
    NumbersAndStep(host, FINGERPRINT, Str([102]), f3);
    NumbersAndStep(host, LONGITUDE, Num(-74), f2);
    NumbersAndStep(host, LATITUDE, Lit(LATITUDE_TEXT), f1);
  }

  /** The ordinary event, produced and delivered, gets through, on every host that takes its ip. */
  lemma SampleEventAccepted(signer: Signer, host: Host, checks: Checks, ns: int, trace: JsStr, ip: JsStr,
                            ns': int, trace': JsStr)
    requires Ideal(signer) && HostOk(host) && trace != [] && checks.isIp(ip)
    ensures var raw := JsonParse(host, ProducedText(Create(signer, ns, trace, SampleEvent(ip))));
            && raw.Some?
            && var got := Ingest(signer, host, TransactionSchema(checks), ns', trace', raw.value);
               got.Some? && Equiv(SampleEvent(ip), got.value.payload)
  {
    SampleEventNumbers(host, ip);
    SampleEventOk(JsInteger(host), checks, ip);
    ProducedAcceptedIff(signer, host, checks, ns, trace, SampleEvent(ip), ns', trace');
  }
}
