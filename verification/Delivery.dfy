/** The consumer's intake: parse, validate, decode and verify one message value. */
module Delivery {
  import opened Wrappers
  import opened JsStrings
  import opened JsonValues
  import opened CanonicalJson
  import opened Envelopes
  import opened Wire
  import opened Transport

  predicate Truthy(v: Value) {
    match v
    case Null => false
    case Bool(b) => b
    case Str(s) => s != []
    case Num(n) => n != 0
    case Big(n) => n != 0
    case _ => true
  }

  predicate HasTruthy(v: Value, key: JsStr) {
    v.Obj? && key in Keys(v.fields) && Truthy(Get(v.fields, key))
  }

  function EnvelopeValue(e: Envelope): Value {
    Obj(FCons(METADATA, e.metadata, FCons(PAYLOAD, e.payload, FCons(SIGNATURE, Str(e.signature), FNil))))
  }

  /** The value of the Kafka record that `produce` sends. */
  function ProducedText(e: Envelope): JsStr {
    WireText(EnvelopeValue(e))
  }

  /** MessageEnvelopeSchema(payloadSchema). */
  function DecodeEnvelope(host: Host, schema: Schema, raw: Value): Option<Envelope> {
    if raw.Obj? && {METADATA, PAYLOAD, SIGNATURE} <= Keys(raw.fields) then
      var metadata :- Decode(host, METADATA_SCHEMA, Get(raw.fields, METADATA));
      var payload :- Decode(host, schema, Get(raw.fields, PAYLOAD));
      var signature := Get(raw.fields, SIGNATURE);
      if signature.Str? && signature.s != [] then Some(Envelope(metadata, payload, signature.s)) else None
    else None
  }

  /** The envelope that goes on to the event store, None when the message goes to the dead-letter
      topic instead. A bare transaction is signed here, with this process's clock and label. The
      consumer calls this with `TransactionSchema`. */
  function Ingest(signer: Signer, host: Host, schema: Schema, ns: int, trace: JsStr, raw: Value): Option<Envelope> {
    if HasTruthy(raw, METADATA) && HasTruthy(raw, PAYLOAD) then
      var e :- DecodeEnvelope(host, schema, raw);
      if Verify(signer, e) then Some(e) else None
    else
      var tx :- Decode(host, schema, raw);
      var e := Create(signer, ns, trace, tx);
      if Verify(signer, e) then Some(e) else None
  }

  /** Metadata always survives the wire. */
  lemma MetadataSurvives(host: Host, ns: int, trace: JsStr)
    requires HostOk(host) && trace != []
    ensures Decode(host, METADATA_SCHEMA, WireValue(NewMetadata(ns, trace))) == Some(NewMetadata(ns, trace))
    ensures Wf(NewMetadata(ns, trace)) && JsNumbers(host, NewMetadata(ns, trace))
  {
    KeyUnits();
    var m := NewMetadata(ns, trace).fields;
    ThreeFields(host, SCHEMA_VERSION, Str(VERSION_TEXT), CREATED_AT_NS, Big(ns), PROVENANCE_TRACE, Str(trace));
    WireFieldsGet(m, SCHEMA_VERSION);
    WireFieldsGet(m, CREATED_AT_NS);
    WireFieldsGet(m, PROVENANCE_TRACE);
    MetadataShape(host, WireFields(m), ns, trace);
  }

  lemma MetadataShape(host: Host, w: Fields, ns: int, trace: JsStr)
    requires HostOk(host) && trace != []
    requires Keys(w) == {SCHEMA_VERSION, CREATED_AT_NS, PROVENANCE_TRACE}
    requires Get(w, SCHEMA_VERSION) == Str(VERSION_TEXT) && Get(w, CREATED_AT_NS) == Str(Decimal(ns))
    requires Get(w, PROVENANCE_TRACE) == Str(trace)
    ensures DecodeShape(host, METADATA_SCHEMA.shape, w) == Some(NewMetadata(ns, trace).fields)
  {
    var s0 := METADATA_SCHEMA.shape;
    assert |VERSION_TEXT| == 4;
    assert DecodeShape(host, s0.rest.rest.rest, w) == Some(FNil);
    assert DecodeShape(host, s0.rest.rest, w) == Some(FCons(PROVENANCE_TRACE, Str(trace), FNil));
    assert DecodeShape(host, s0.rest, w) ==
        Some(FCons(CREATED_AT_NS, Big(ns), FCons(PROVENANCE_TRACE, Str(trace), FNil)));
  }

  /** The parts of the parsed record. */
  lemma ProducedParts(host: Host, e: Envelope)
    requires Wf(e.metadata) && Wf(e.payload) && JsNumbers(host, e.metadata) && JsNumbers(host, e.payload)
    ensures JsonParse(host, ProducedText(e)) == Some(WireValue(EnvelopeValue(e)))
    ensures var fs := WireFields(EnvelopeValue(e).fields);
            && WireValue(EnvelopeValue(e)) == Obj(fs)
            && Keys(fs) == {METADATA, PAYLOAD, SIGNATURE}
            && Get(fs, METADATA) == WireValue(e.metadata)
            && Get(fs, PAYLOAD) == WireValue(e.payload)
            && Get(fs, SIGNATURE) == Str(e.signature)
  {
    KeyUnits();
    var fs := EnvelopeValue(e).fields;
    ThreeFields(host, METADATA, e.metadata, PAYLOAD, e.payload, SIGNATURE, Str(e.signature));
    WireRead(host, EnvelopeValue(e));
    WireFieldsGet(fs, METADATA);
    WireFieldsGet(fs, PAYLOAD);
    WireFieldsGet(fs, SIGNATURE);
  }

  lemma IngestEnvelope(signer: Signer, host: Host, schema: Schema, fs: Fields, metadata: Value, signature: JsStr,
                       ns: int, trace: JsStr)
    requires Keys(fs) == {METADATA, PAYLOAD, SIGNATURE}
    requires Get(fs, METADATA).Obj? && Get(fs, PAYLOAD).Obj? && Get(fs, SIGNATURE) == Str(signature) && signature != []
    requires Decode(host, METADATA_SCHEMA, Get(fs, METADATA)) == Some(metadata)
    ensures var decoded := Decode(host, schema, Get(fs, PAYLOAD));
            Ingest(signer, host, schema, ns, trace, Obj(fs)) ==
            if decoded.Some? && Verify(signer, Envelope(metadata, decoded.value, signature))
            then Some(Envelope(metadata, decoded.value, signature)) else None
  {
    var raw := Obj(fs);
    assert HasTruthy(raw, METADATA) && HasTruthy(raw, PAYLOAD);
    var decoded := Decode(host, schema, Get(fs, PAYLOAD));
    assert DecodeEnvelope(host, schema, raw) ==
      if decoded.Some? then Some(Envelope(metadata, decoded.value, signature)) else None;
  }

  /** Intake of a produced record, given what its payload decodes to. */
  lemma IngestProduced(signer: Signer, host: Host, schema: Schema, ns: int, trace: JsStr, payload: Value,
                       ns': int, trace': JsStr)
    requires Ideal(signer) && HostOk(host) && trace != []
    requires payload.Obj? && Wf(payload) && JsNumbers(host, payload)
    ensures var e := Create(signer, ns, trace, payload);
            var decoded := Decode(host, schema, WireValue(payload));
            && JsonParse(host, ProducedText(e)) == Some(WireValue(EnvelopeValue(e)))
            && Ingest(signer, host, schema, ns', trace', WireValue(EnvelopeValue(e))) ==
               if decoded.Some? && Verify(signer, Envelope(e.metadata, decoded.value, e.signature))
               then Some(Envelope(e.metadata, decoded.value, e.signature)) else None
  {
    var e := Create(signer, ns, trace, payload);
    MetadataSurvives(host, ns, trace);
    ProducedParts(host, e);
    IngestEnvelope(signer, host, schema, WireFields(EnvelopeValue(e).fields), e.metadata, e.signature, ns', trace');
  }

  /** A produced envelope is accepted by the consumer exactly when its payload passes the schema, has
      the declared leaf types, and loses no key in decoding; what is accepted has the signed text. */
  lemma WireRoundTrip(signer: Signer, host: Host, schema: Schema, ns: int, trace: JsStr, payload: Value,
                      ns': int, trace': JsStr)
    requires Ideal(signer) && HostOk(host) && SchemaOk(schema) && trace != []
    requires payload.Obj? && Wf(payload) && JsNumbers(host, payload)
    ensures var e := Create(signer, ns, trace, payload);
            var raw := JsonParse(host, ProducedText(e));
            && raw.Some?
            && (Ingest(signer, host, schema, ns', trace', raw.value).Some? <==>
                  && Decode(host, schema, WireValue(payload)).Some?
                  && Typed(host, schema, payload)
                  && NoExtraKeys(schema, payload))
            && (Ingest(signer, host, schema, ns', trace', raw.value).Some? ==>
                  var got := Ingest(signer, host, schema, ns', trace', raw.value).value;
                  && got.metadata == e.metadata && Equiv(payload, got.payload)
                  && SignedText(got.metadata, got.payload) == SignedText(e.metadata, payload))
  {
    var e := Create(signer, ns, trace, payload);
    MetadataSurvives(host, ns, trace);
    IngestProduced(signer, host, schema, ns, trace, payload, ns', trace');
    var decoded := Decode(host, schema, WireValue(payload));
    if decoded.Some? {
      DecodeKeeps(host, schema, payload);
      SignatureBindsContent(signer, e, e.metadata, decoded.value);
      CanonicalizeInjective(e.metadata, e.metadata);
    }
  }

  /** For payloads of the declared types that pass the schema, only a dropped key can break verification. */
  lemma TypedPayloadVerifiesIffNoKeyDropped(signer: Signer, host: Host, checks: Checks, ns: int, trace: JsStr,
                                            payload: Value, ns': int, trace': JsStr)
    requires Ideal(signer) && HostOk(host) && trace != []
    requires payload.Obj? && Wf(payload) && JsNumbers(host, payload)
    requires Typed(host, TransactionSchema(checks), payload)
    requires Decode(host, TransactionSchema(checks), WireValue(payload)).Some?
    ensures var raw := JsonParse(host, ProducedText(Create(signer, ns, trace, payload)));
            raw.Some? &&
            (Ingest(signer, host, TransactionSchema(checks), ns', trace', raw.value).Some? <==>
               NoExtraKeys(TransactionSchema(checks), payload))
  {
    TransactionSchemaOk(checks);
    WireRoundTrip(signer, host, TransactionSchema(checks), ns, trace, payload, ns', trace');
  }

  /** A bare transaction is signed on arrival, with what it decodes to, so verification never rejects it:
      whether it is accepted depends on the schema alone, whatever its sender signed or altered. */
  lemma BareTransactionAccepted(signer: Signer, host: Host, schema: Schema, ns: int, trace: JsStr, raw: Value)
    requires !(HasTruthy(raw, METADATA) && HasTruthy(raw, PAYLOAD))
    ensures Ingest(signer, host, schema, ns, trace, raw) ==
            var tx := Decode(host, schema, raw);
            if tx.Some? then Some(Create(signer, ns, trace, tx.value)) else None
  {
  }

  // ----- the payloads that `TransactionFactory` builds -----

  const SCHEMA_VERSION_ONE: Value := Num(1)

  /** What the three builders take and read from the clock. */
  datatype Built = Built(transactionId: JsStr, userId: JsStr, merchantId: JsStr, amount: Value, telemetry: Value,
                         timestamp: int, createdAt: int)

  /** The fields that every builder starts with, in front of those of the type. */
  function FactoryEvent(kind: JsStr, e: Built, own: Fields): Value {
    Obj(FCons(TYPE, Str(kind),
        FCons(TRANSACTION_ID, Str(e.transactionId),
        FCons(USER_ID, Str(e.userId),
        FCons(MERCHANT_ID, Str(e.merchantId),
        FCons(AMOUNT, e.amount,
        FCons(TELEMETRY, e.telemetry, own)))))))
  }

  /** The fields that every builder ends with: the event carries its own `metadata` object. */
  function FactoryEnd(e: Built): Fields {
    FCons(TIMESTAMP, Big(e.timestamp),
    FCons(METADATA, Obj(FCons(SCHEMA_VERSION, SCHEMA_VERSION_ONE,
                        FCons(CREATED_AT, Num(e.createdAt),
                        FCons(SIGNATURE, Str([]), FNil)))), FNil))
  }

  function FactoryInitiated(e: Built): Value {
    FactoryEvent(INITIATED, e, FactoryEnd(e))
  }

  function FactoryValidated(e: Built, validatorId: JsStr): Value {
    FactoryEvent(VALIDATED, e, FCons(VALIDATOR_ID, Str(validatorId), FactoryEnd(e)))
  }

  function FactoryFlagged(e: Built, reason: JsStr, riskScore: Value): Value {
    FactoryEvent(FLAGGED, e, FCons(REASON, Str(reason), FCons(RISK_SCORE, riskScore, FactoryEnd(e))))
  }

  /** No alternative lists the key. */
  predicate NoneLists(choices: Choices, key: JsStr) {
    match choices
    case NoChoice => true
    case Choice(_, shape, rest) => key !in ShapeKeys(shape) && NoneLists(rest, key)
  }

  lemma {:induction false} UnlistedKeyIsExtra(choices: Choices, name: Value, fs: Fields, key: JsStr)
    requires NoneLists(choices, key) && key in Keys(fs)
    ensures !NoExtraInChoice(choices, name, fs)
    decreases choices
  {
    if choices.Choice? {
      UnlistedKeyIsExtra(choices.rest, name, fs, key);
    }
  }

  lemma NoTransactionListsMetadata(checks: Checks)
    ensures NoneLists(TransactionSchema(checks).choices, METADATA)
  {
    FlaggedShapeOk(checks);
    ValidatedShapeOk(checks);
    InitiatedShapeOk(checks);
    var flagged := Choice(FLAGGED, FlaggedShape(checks), NoChoice);
    assert NoneLists(flagged, METADATA);
    assert NoneLists(Choice(VALIDATED, ValidatedShape(checks), flagged), METADATA);
  }

  /** The event, produced and delivered, does not get past intake. */
  predicate Rejected(signer: Signer, host: Host, checks: Checks, ns: int, trace: JsStr,
                     payload: Value, ns': int, trace': JsStr) {
    var raw := JsonParse(host, ProducedText(Create(signer, ns, trace, payload)));
    raw.Some? && Ingest(signer, host, TransactionSchema(checks), ns', trace', raw.value).None?
  }

  /** Any event with a `metadata` key fails verification at a consumer: decoding drops the key. */
  lemma EventWithMetadataNeverAccepted(signer: Signer, host: Host, checks: Checks, ns: int, trace: JsStr,
                                       payload: Value,
                                       ns': int, trace': JsStr)
    requires Ideal(signer) && HostOk(host) && trace != []
    requires payload.Obj? && METADATA in Keys(payload.fields) && Wf(payload) && JsNumbers(host, payload)
    ensures Rejected(signer, host, checks, ns, trace, payload, ns', trace')
  {
    NoTransactionListsMetadata(checks);
    if TYPE in Keys(payload.fields) {
      UnlistedKeyIsExtra(TransactionSchema(checks).choices, WireValue(Get(payload.fields, TYPE)),
                         payload.fields, METADATA);
    }
    TransactionSchemaOk(checks);
    WireRoundTrip(signer, host, TransactionSchema(checks), ns, trace, payload, ns', trace');
  }

  lemma FactoryEndHasMetadata(e: Built)
    ensures METADATA in Keys(FactoryEnd(e))
  {
    assert METADATA in Keys(FactoryEnd(e).rest);
  }

  lemma FactoryEventKeeps(kind: JsStr, e: Built, own: Fields, key: JsStr)
    requires key in Keys(own)
    ensures key in Keys(FactoryEvent(kind, e, own).fields)
  {
    var fs := FactoryEvent(kind, e, own).fields;
    assert key in Keys(fs.rest.rest.rest.rest.rest) && key in Keys(fs.rest.rest.rest.rest);
    assert key in Keys(fs.rest.rest.rest) && key in Keys(fs.rest.rest) && key in Keys(fs.rest);
  }

  /** All three builders put the key in. */
  lemma FactoryKeys(e: Built, validatorId: JsStr, reason: JsStr, riskScore: Value)
    ensures METADATA in Keys(FactoryInitiated(e).fields)
    ensures METADATA in Keys(FactoryValidated(e, validatorId).fields)
    ensures METADATA in Keys(FactoryFlagged(e, reason, riskScore).fields)
  {
    FactoryEndHasMetadata(e);
    FactoryEventKeeps(INITIATED, e, FactoryEnd(e), METADATA);
    FactoryEventKeeps(VALIDATED, e, FCons(VALIDATOR_ID, Str(validatorId), FactoryEnd(e)), METADATA);
    var risk := FCons(RISK_SCORE, riskScore, FactoryEnd(e));
    assert METADATA in Keys(risk);
    FactoryEventKeeps(FLAGGED, e, FCons(REASON, Str(reason), risk), METADATA);
  }

  /** Every event that the factory builds, of all three types, is rejected by every consumer. */
  lemma FactoryEventsNeverAccepted(signer: Signer, host: Host, checks: Checks, ns: int, trace: JsStr, payload: Value,
                                   e: Built, validatorId: JsStr, reason: JsStr, riskScore: Value,
                                   ns': int, trace': JsStr)
    requires Ideal(signer) && HostOk(host) && trace != []
    requires payload in {FactoryInitiated(e), FactoryValidated(e, validatorId), FactoryFlagged(e, reason, riskScore)}
    requires Wf(payload) && JsNumbers(host, payload)
    ensures Rejected(signer, host, checks, ns, trace, payload, ns', trace')
  {
    FactoryKeys(e, validatorId, reason, riskScore);
    EventWithMetadataNeverAccepted(signer, host, checks, ns, trace, payload, ns', trace');
  }
}
