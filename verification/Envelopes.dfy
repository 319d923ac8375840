/** Signed envelopes: `EventEnvelopeFactory` over an ideal signature scheme. */
module Envelopes {
  import opened JsStrings
  import opened JsonValues
  import opened CanonicalJson

  /** `signEvent`, with `verifyEvent(data, sig)` read as `sig == sign(data)`. */
  datatype Signer = Signer(sign: JsStr -> JsStr)

  ghost predicate Ideal(signer: Signer) {
    && (forall a, b :: signer.sign(a) == signer.sign(b) ==> a == b)
    && (forall a :: signer.sign(a) != [])
  }

  datatype Envelope = Envelope(metadata: Value, payload: Value, signature: JsStr)

  const METADATA: JsStr := Js("metadata")
  const PAYLOAD: JsStr := Js("payload")
  const SIGNATURE: JsStr := Js("signature")
  const SCHEMA_VERSION: JsStr := Js("schemaVersion")
  const CREATED_AT_NS: JsStr := Js("createdAtNs")
  const PROVENANCE_TRACE: JsStr := Js("provenanceTrace")
  const VERSION_TEXT: JsStr := Js("v1.0")

  /** The object whose canonical text is signed. */
  function SignedData(metadata: Value, payload: Value): Value {
    Obj(FCons(METADATA, metadata, FCons(PAYLOAD, payload, FNil)))
  }

  function SignedText(metadata: Value, payload: Value): JsStr {
    Canonicalize(SignedData(metadata, payload))
  }

  function NewMetadata(ns: int, trace: JsStr): Value {
    Obj(FCons(SCHEMA_VERSION, Str(VERSION_TEXT),
        FCons(CREATED_AT_NS, Big(ns),
        FCons(PROVENANCE_TRACE, Str(trace), FNil))))
  }

  /** `create`: ns is the monotonic clock, trace the `proc:` label. */
  function Create(signer: Signer, ns: int, trace: JsStr, payload: Value): Envelope {
    var metadata := NewMetadata(ns, trace);
    Envelope(metadata, payload, signer.sign(SignedText(metadata, payload)))
  }

  predicate Verify(signer: Signer, e: Envelope) {
    e.signature == signer.sign(SignedText(e.metadata, e.payload))
  }

  lemma MetadataKeysDiffer()
    ensures SCHEMA_VERSION != CREATED_AT_NS && SCHEMA_VERSION != PROVENANCE_TRACE
    ensures CREATED_AT_NS != PROVENANCE_TRACE
  {
    assert |SCHEMA_VERSION| == 13 && |CREATED_AT_NS| == 11 && |PROVENANCE_TRACE| == 15;
  }

  lemma TwoKeys(k1: JsStr, v1: Value, k2: JsStr, v2: Value)
    requires k1 != k2
    ensures var fs := FCons(k1, v1, FCons(k2, v2, FNil));
            && Keys(fs) == {k1, k2} && Distinct(fs)
            && Get(fs, k1) == v1 && Get(fs, k2) == v2
            && (WfFields(fs) <==> Wf(v1) && Wf(v2))
  {
    FieldsStep(k2, v2, FNil);
    FieldsStep(k1, v1, FCons(k2, v2, FNil));
  }

  lemma TwoKeysEquiv(k1: JsStr, v1: Value, k2: JsStr, v2: Value, b: Fields)
    requires k1 != k2 && Keys(b) == {k1, k2}
    ensures Equiv(Obj(FCons(k1, v1, FCons(k2, v2, FNil))), Obj(b)) <==> Equiv(v1, Get(b, k1)) && Equiv(v2, Get(b, k2))
  {
    var last := FCons(k2, v2, FNil);
    TwoKeys(k1, v1, k2, v2);
    assert EquivFields(last, b) <==> Equiv(v2, Get(b, k2));
  }

  lemma SignedDataEquiv(m: Value, p: Value, m': Value, p': Value)
    ensures Equiv(SignedData(m, p), SignedData(m', p')) <==> Equiv(m, m') && Equiv(p, p')
    ensures Wf(SignedData(m, p)) <==> Wf(m) && Wf(p)
  {
    assert METADATA != PAYLOAD by {
      assert |METADATA| == 8 && |PAYLOAD| == 7;
    }
    TwoKeys(METADATA, m, PAYLOAD, p);
    TwoKeys(METADATA, m', PAYLOAD, p');
    TwoKeysEquiv(METADATA, m, PAYLOAD, p, SignedData(m', p').fields);
  }

  /** A signature that verifies for one content verifies for another exactly when the two
      mean the same. */
  lemma SignatureBindsContent(signer: Signer, e: Envelope, metadata: Value, payload: Value)
    requires Ideal(signer) && Verify(signer, e)
    requires Wf(e.metadata) && Wf(e.payload) && Wf(metadata) && Wf(payload)
    ensures Verify(signer, Envelope(metadata, payload, e.signature)) <==>
            Equiv(e.metadata, metadata) && Equiv(e.payload, payload)
  {
    SignedDataEquiv(e.metadata, e.payload, metadata, payload);
    SignedDataEquiv(metadata, payload, metadata, payload);
    CanonicalizeInjective(SignedData(e.metadata, e.payload), SignedData(metadata, payload));
  }

  // ----- what is signed, written out -----

  /** A field as text: the key in quotes, a colon, and the text of the value. */
  function FieldText(key: JsStr, text: JsStr): JsStr {
    [34] + key + [34, 58] + text
  }

  /** Two and three fields in braces. */
  function Braces(a: JsStr, b: JsStr): JsStr {
    [123] + (a + [44] + b) + [125]
  }

  function Braces3(a: JsStr, b: JsStr, c: JsStr): JsStr {
    [123] + (a + [44] + (b + [44] + c)) + [125]
  }

  lemma LastPair(key: JsStr, val: Value)
    requires PlainAscii(key)
    ensures JoinPairs(FCons(key, val, FNil)) == FieldText(key, Canonicalize(val))
  {
    EscapePlain(key);
  }

  lemma NextPair(key: JsStr, val: Value, rest: Fields)
    requires PlainAscii(key) && rest.FCons?
    ensures JoinPairs(FCons(key, val, rest)) == FieldText(key, Canonicalize(val)) + [44] + JoinPairs(rest)
  {
    EscapePlain(key);
  }

  lemma SignedKeys()
    ensures PlainAscii(METADATA) && PlainAscii(PAYLOAD)
    ensures Less(METADATA, PAYLOAD)
  {
    assert METADATA[0] == 109 && PAYLOAD[0] == 112;
  }

  /** The text of an object whose sorted fields are these. */
  lemma TwoFieldText(fs: Fields, k1: JsStr, v1: Value, k2: JsStr, v2: Value)
    requires PlainAscii(k1) && PlainAscii(k2)
    requires SortFields(fs) == FCons(k1, v1, FCons(k2, v2, FNil))
    ensures Canonicalize(Obj(fs)) == Braces(FieldText(k1, Canonicalize(v1)), FieldText(k2, Canonicalize(v2)))
  {
    LastPair(k2, v2);
    NextPair(k1, v1, FCons(k2, v2, FNil));
  }

  lemma ThreeFieldText(fs: Fields, k1: JsStr, v1: Value, k2: JsStr, v2: Value, k3: JsStr, v3: Value)
    requires PlainAscii(k1) && PlainAscii(k2) && PlainAscii(k3)
    requires SortFields(fs) == FCons(k1, v1, FCons(k2, v2, FCons(k3, v3, FNil)))
    ensures Canonicalize(Obj(fs))
         == Braces3(FieldText(k1, Canonicalize(v1)), FieldText(k2, Canonicalize(v2)), FieldText(k3, Canonicalize(v3)))
  {
    LastPair(k3, v3);
    NextPair(k2, v2, FCons(k3, v3, FNil));
    NextPair(k1, v1, FCons(k2, v2, FCons(k3, v3, FNil)));
  }

  /** Two fields that are in order stay so. */
  lemma TwoSorted(k1: JsStr, v1: Value, k2: JsStr, v2: Value)
    requires Less(k1, k2)
    ensures SortFields(FCons(k1, v1, FCons(k2, v2, FNil))) == FCons(k1, v1, FCons(k2, v2, FNil))
  {
    assert SortFields(FCons(k2, v2, FNil)) == FCons(k2, v2, FNil);
  }

  /** The signed text of any metadata and payload: {"metadata":...,"payload":...}. */
  lemma SignedTextIs(metadata: Value, payload: Value)
    ensures SignedText(metadata, payload)
         == Braces(FieldText(METADATA, Canonicalize(metadata)), FieldText(PAYLOAD, Canonicalize(payload)))
  {
    SignedKeys();
    TwoSorted(METADATA, metadata, PAYLOAD, payload);
    TwoFieldText(SignedData(metadata, payload).fields, METADATA, metadata, PAYLOAD, payload);
  }

  lemma MetadataKeys()
    ensures PlainAscii(CREATED_AT_NS) && PlainAscii(PROVENANCE_TRACE) && PlainAscii(SCHEMA_VERSION)
        && PlainAscii(VERSION_TEXT)
    ensures Less(CREATED_AT_NS, PROVENANCE_TRACE)
    ensures !Less(SCHEMA_VERSION, CREATED_AT_NS) && !Less(SCHEMA_VERSION, PROVENANCE_TRACE)
  {
    assert CREATED_AT_NS[0] == 99 && PROVENANCE_TRACE[0] == 112 && SCHEMA_VERSION[0] == 115;
  }

  lemma MetadataSorted(ns: int, trace: JsStr)
    ensures SortFields(NewMetadata(ns, trace).fields)
         == FCons(CREATED_AT_NS, Big(ns), FCons(PROVENANCE_TRACE, Str(trace),
            FCons(SCHEMA_VERSION, Str(VERSION_TEXT), FNil)))
  {
    MetadataKeys();
    TwoSorted(CREATED_AT_NS, Big(ns), PROVENANCE_TRACE, Str(trace));
    var last := FCons(PROVENANCE_TRACE, Str(trace), FNil);
    assert Insert(SCHEMA_VERSION, Str(VERSION_TEXT), last)
        == FCons(PROVENANCE_TRACE, Str(trace), FCons(SCHEMA_VERSION, Str(VERSION_TEXT), FNil));
  }

  /** The text of the metadata that `create` makes:
      {"createdAtNs":...,"provenanceTrace":...,"schemaVersion":"v1.0"}. */
  lemma MetadataTextIs(ns: int, trace: JsStr)
    ensures Canonicalize(NewMetadata(ns, trace))
         == Braces3(FieldText(CREATED_AT_NS, Decimal(ns)),
                    FieldText(PROVENANCE_TRACE, Quote(trace)),
                    FieldText(SCHEMA_VERSION, [34] + VERSION_TEXT + [34]))
  {
    MetadataKeys();
    MetadataSorted(ns, trace);
    EscapePlain(VERSION_TEXT);
    ThreeFieldText(NewMetadata(ns, trace).fields, CREATED_AT_NS, Big(ns), PROVENANCE_TRACE, Str(trace),
                   SCHEMA_VERSION, Str(VERSION_TEXT));
  }

  /** The envelope that `create` makes: the payload itself under a signature of the text above. */
  lemma CreatedEnvelopeIs(signer: Signer, ns: int, trace: JsStr, payload: Value)
    ensures var e := Create(signer, ns, trace, payload);
            && e.payload == payload
            && e.signature == signer.sign(Braces(FieldText(METADATA, Canonicalize(e.metadata)),
                                                 FieldText(PAYLOAD, Canonicalize(payload))))
            && Canonicalize(e.metadata) == Braces3(FieldText(CREATED_AT_NS, Decimal(ns)),
                                                   FieldText(PROVENANCE_TRACE, Quote(trace)),
                                                   FieldText(SCHEMA_VERSION, [34] + VERSION_TEXT + [34]))
  {
    SignedTextIs(NewMetadata(ns, trace), payload);
    MetadataTextIs(ns, trace);
  }
}
