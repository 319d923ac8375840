/** An envelope from `produce` to the consumer's verification, with the transaction schemas. */
module Transport {
  import opened JsStrings
  import opened JsonValues
  import opened Envelopes
  import opened Wire

  const TYPE: JsStr := Js("type")
  const TRANSACTION_ID: JsStr := Js("transactionId")
  const USER_ID: JsStr := Js("userId")
  const MERCHANT_ID: JsStr := Js("merchantId")
  const AMOUNT: JsStr := Js("amount")
  const VALUE: JsStr := Js("value")
  const CURRENCY: JsStr := Js("currency")
  const TIMESTAMP: JsStr := Js("timestamp")
  const TELEMETRY: JsStr := Js("telemetry")
  const LATITUDE: JsStr := Js("latitude")
  const LONGITUDE: JsStr := Js("longitude")
  const FINGERPRINT: JsStr := Js("deviceFingerprint")
  const IP_ADDRESS: JsStr := Js("ipAddress")
  const USER_AGENT: JsStr := Js("userAgent")
  const VALIDATOR_ID: JsStr := Js("validatorId")
  const REASON: JsStr := Js("reason")
  const RISK_SCORE: JsStr := Js("riskScore")
  const INITIATED: JsStr := Js("TransactionInitiated")
  const VALIDATED: JsStr := Js("TransactionValidated")
  const FLAGGED: JsStr := Js("TransactionFlagged")
  const CREATED_AT: JsStr := Js("createdAt")

  /** The two checks of the schema library whose inside does not matter here: `z.string().ip()` and
      `z.number().min(0).max(1)`. */
  datatype Checks = Checks(isIp: JsStr -> bool, inUnitRange: Value -> bool)

  const NON_EMPTY: Schema := Text((s: JsStr) => |s| >= 1)

  const ANY_NUMBER: Schema := Number((v: Value) => true)

  const AMOUNT_SCHEMA: Schema :=
    Record(Field(VALUE, BigInteger,
           Field(CURRENCY, Text((s: JsStr) => |s| == 3), End)))

  function TelemetrySchema(checks: Checks): Schema {
    Record(Field(LATITUDE, ANY_NUMBER,
           Field(LONGITUDE, ANY_NUMBER,
           Field(FINGERPRINT, NON_EMPTY,
           Field(IP_ADDRESS, Text(checks.isIp),
           Field(USER_AGENT, NON_EMPTY, End))))))
  }

  /** The fields every transaction event has, in front of those of its type. */
  function EventShape(checks: Checks, own: Shape): Shape {
    Field(TRANSACTION_ID, NON_EMPTY,
    Field(USER_ID, NON_EMPTY,
    Field(MERCHANT_ID, NON_EMPTY,
    Field(AMOUNT, AMOUNT_SCHEMA,
    Field(TIMESTAMP, BigInteger,
    Field(TELEMETRY, TelemetrySchema(checks), own))))))
  }

  function InitiatedShape(checks: Checks): Shape {
    EventShape(checks, Field(TYPE, Literal(INITIATED), End))
  }

  function ValidatedShape(checks: Checks): Shape {
    EventShape(checks, Field(TYPE, Literal(VALIDATED), Field(VALIDATOR_ID, NON_EMPTY, End)))
  }

  function FlaggedShape(checks: Checks): Shape {
    EventShape(checks, Field(TYPE, Literal(FLAGGED),
                       Field(REASON, NON_EMPTY,
                       Field(RISK_SCORE, Number(checks.inUnitRange), End))))
  }

  function TransactionSchema(checks: Checks): Schema {
    OneOf(TYPE, Choice(INITIATED, InitiatedShape(checks),
                Choice(VALIDATED, ValidatedShape(checks),
                Choice(FLAGGED, FlaggedShape(checks), NoChoice))))
  }

  const METADATA_SCHEMA: Schema :=
    Record(Field(SCHEMA_VERSION, NON_EMPTY,
           Field(CREATED_AT_NS, BigInteger,
           Field(PROVENANCE_TRACE, NON_EMPTY, End))))

  // ----- the shapes list no key twice -----

  lemma KeyUnits()
    ensures |TRANSACTION_ID| == 13 && |USER_ID| == 6 && |MERCHANT_ID| == 10 && |AMOUNT| == 6
    ensures |TIMESTAMP| == 9 && |TELEMETRY| == 9 && |TYPE| == 4 && |VALIDATOR_ID| == 11
        && |REASON| == 6 && |RISK_SCORE| == 9
    ensures |VALUE| == 5 && |CURRENCY| == 8 && |LATITUDE| == 8 && |LONGITUDE| == 9 && |FINGERPRINT| == 17
    ensures |IP_ADDRESS| == 9 && |USER_AGENT| == 9
    ensures |METADATA| == 8 && |PAYLOAD| == 7 && |SIGNATURE| == 9
    ensures |SCHEMA_VERSION| == 13 && |CREATED_AT_NS| == 11 && |PROVENANCE_TRACE| == 15
    ensures USER_ID[0] == 117 && AMOUNT[0] == 97 && REASON[0] == 114
    ensures TIMESTAMP[1] == 105 && TELEMETRY[1] == 101 && RISK_SCORE[0] == 114 && TIMESTAMP[0] == TELEMETRY[0] == 116
    ensures RISK_SCORE[1] == 105
    ensures LONGITUDE[0] == 108 && IP_ADDRESS[0] == 105 && USER_AGENT[0] == 117
  {
  }

  lemma FieldOk(key: JsStr, schema: Schema, rest: Shape, keys: set<JsStr>)
    requires ShapeOk(rest) && ShapeKeys(rest) == keys && key !in keys && SchemaOk(schema)
    ensures ShapeOk(Field(key, schema, rest)) && ShapeKeys(Field(key, schema, rest)) == {key} + keys
  {
  }

  lemma TelemetryOk(checks: Checks)
    ensures SchemaOk(TelemetrySchema(checks)) && SchemaOk(AMOUNT_SCHEMA)
  {
    KeyUnits();
    var s4 := Field(USER_AGENT, NON_EMPTY, End);
    assert ShapeKeys(s4) == {USER_AGENT};
    FieldOk(IP_ADDRESS, Text(checks.isIp), s4, {USER_AGENT});
    var s3 := Field(IP_ADDRESS, Text(checks.isIp), s4);
    FieldOk(FINGERPRINT, NON_EMPTY, s3, {IP_ADDRESS, USER_AGENT});
    var s2 := Field(FINGERPRINT, NON_EMPTY, s3);
    FieldOk(LONGITUDE, ANY_NUMBER, s2, {FINGERPRINT, IP_ADDRESS, USER_AGENT});
    var s1 := Field(LONGITUDE, ANY_NUMBER, s2);
    FieldOk(LATITUDE, ANY_NUMBER, s1, {LONGITUDE, FINGERPRINT, IP_ADDRESS, USER_AGENT});
  }

  lemma ThreeFieldsOk(a: JsStr, b: JsStr, c: JsStr, sa: Schema, sb: Schema, sc: Schema,
                      rest: Shape, keys: set<JsStr>)
    requires a != b && a != c && b != c && a !in keys && b !in keys && c !in keys
    requires SchemaOk(sa) && SchemaOk(sb) && SchemaOk(sc)
    requires ShapeOk(rest) && ShapeKeys(rest) == keys
    ensures var shape := Field(a, sa, Field(b, sb, Field(c, sc, rest)));
            ShapeOk(shape) && ShapeKeys(shape) == {a, b, c} + keys
  {
    FieldOk(c, sc, rest, keys);
    FieldOk(b, sb, Field(c, sc, rest), {c} + keys);
    FieldOk(a, sa, Field(b, sb, Field(c, sc, rest)), {b} + ({c} + keys));
  }

  /** Keys of different length or with a different first or second unit differ. */
  lemma EventKeysDiffer()
    ensures TRANSACTION_ID !in {USER_ID, MERCHANT_ID, AMOUNT, TIMESTAMP, TELEMETRY}
    ensures USER_ID !in {MERCHANT_ID, AMOUNT, TIMESTAMP, TELEMETRY}
    ensures MERCHANT_ID !in {AMOUNT, TIMESTAMP, TELEMETRY}
    ensures AMOUNT !in {TIMESTAMP, TELEMETRY} && TIMESTAMP != TELEMETRY
  {
    KeyUnits();
  }

  lemma OwnKeysDiffer(key: JsStr)
    requires key in {TYPE, VALIDATOR_ID, REASON, RISK_SCORE, METADATA}
    ensures key !in {TRANSACTION_ID, USER_ID, MERCHANT_ID, AMOUNT, TIMESTAMP, TELEMETRY}
  {
    KeyUnits();
  }

  lemma EventShapeOk(checks: Checks, own: Shape, ownKeys: set<JsStr>)
    requires ShapeOk(own) && ShapeKeys(own) == ownKeys
    requires ownKeys <= {TYPE, VALIDATOR_ID, REASON, RISK_SCORE}
    ensures ShapeOk(EventShape(checks, own))
    ensures ShapeKeys(EventShape(checks, own))
         == {TRANSACTION_ID, USER_ID, MERCHANT_ID, AMOUNT, TIMESTAMP, TELEMETRY} + ownKeys
  {
    EventKeysDiffer();
    TelemetryOk(checks);
    forall key | key in ownKeys
      ensures key !in {TRANSACTION_ID, USER_ID, MERCHANT_ID, AMOUNT, TIMESTAMP, TELEMETRY}
    {
      OwnKeysDiffer(key);
    }
    ThreeFieldsOk(AMOUNT, TIMESTAMP, TELEMETRY, AMOUNT_SCHEMA, BigInteger, TelemetrySchema(checks), own, ownKeys);
    ThreeFieldsOk(TRANSACTION_ID, USER_ID, MERCHANT_ID, NON_EMPTY, NON_EMPTY, NON_EMPTY,
                  Field(AMOUNT, AMOUNT_SCHEMA, Field(TIMESTAMP, BigInteger,
                        Field(TELEMETRY, TelemetrySchema(checks), own))),
                  {AMOUNT, TIMESTAMP, TELEMETRY} + ownKeys);
  }

  lemma FlaggedShapeOk(checks: Checks)
    ensures ShapeOk(FlaggedShape(checks))
    ensures ShapeKeys(FlaggedShape(checks))
         == {TRANSACTION_ID, USER_ID, MERCHANT_ID, AMOUNT, TIMESTAMP, TELEMETRY} + {TYPE, REASON, RISK_SCORE}
    ensures METADATA !in ShapeKeys(FlaggedShape(checks))
  {
    KeyUnits();
    var risk := Field(RISK_SCORE, Number(checks.inUnitRange), End);
    assert ShapeKeys(risk) == {RISK_SCORE};
    FieldOk(REASON, NON_EMPTY, risk, {RISK_SCORE});
    var reason := Field(REASON, NON_EMPTY, risk);
    FieldOk(TYPE, Literal(FLAGGED), reason, {REASON, RISK_SCORE});
    EventShapeOk(checks, Field(TYPE, Literal(FLAGGED), reason), {TYPE, REASON, RISK_SCORE});
    OwnKeysDiffer(METADATA);
  }

  lemma InitiatedShapeOk(checks: Checks)
    ensures ShapeOk(InitiatedShape(checks))
    ensures ShapeKeys(InitiatedShape(checks))
         == {TRANSACTION_ID, USER_ID, MERCHANT_ID, AMOUNT, TIMESTAMP, TELEMETRY} + {TYPE}
    ensures METADATA !in ShapeKeys(InitiatedShape(checks))
  {
    KeyUnits();
    OwnKeysDiffer(METADATA);
    FieldOk(TYPE, Literal(INITIATED), End, {});
    EventShapeOk(checks, Field(TYPE, Literal(INITIATED), End), {TYPE});
  }

  lemma ValidatedShapeOk(checks: Checks)
    ensures ShapeOk(ValidatedShape(checks))
    ensures ShapeKeys(ValidatedShape(checks))
         == {TRANSACTION_ID, USER_ID, MERCHANT_ID, AMOUNT, TIMESTAMP, TELEMETRY} + {TYPE, VALIDATOR_ID}
    ensures METADATA !in ShapeKeys(ValidatedShape(checks))
  {
    KeyUnits();
    OwnKeysDiffer(METADATA);
    var validator := Field(VALIDATOR_ID, NON_EMPTY, End);
    assert ShapeKeys(validator) == {VALIDATOR_ID};
    FieldOk(TYPE, Literal(VALIDATED), validator, {VALIDATOR_ID});
    EventShapeOk(checks, Field(TYPE, Literal(VALIDATED), validator), {TYPE, VALIDATOR_ID});
  }

  lemma TransactionSchemaOk(checks: Checks)
    ensures SchemaOk(TransactionSchema(checks))
  {
    FlaggedShapeOk(checks);
    ValidatedShapeOk(checks);
    InitiatedShapeOk(checks);
    var flagged := Choice(FLAGGED, FlaggedShape(checks), NoChoice);
    assert ChoicesOk(flagged);
    assert ChoicesOk(Choice(VALIDATED, ValidatedShape(checks), flagged));
  }
}
