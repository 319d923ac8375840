/** The way over Kafka: bigints become strings, the text is parsed, and the schema decodes it. */
module Wire {
  import opened Wrappers
  import opened JsStrings
  import opened JsonValues
  import opened CanonicalJson
  import opened Envelopes

  const MAX_SAFE: int := 0x1F_FFFF_FFFF_FFFF

  /** Two functions of the JavaScript host: `BigInt(v)`, None when it throws, and the number that
      JSON.parse makes of an integer text. Beyond 2^53 every number is even and has an even text. */
  datatype Host = Host(bigOf: Value -> Option<int>, readInt: int -> Value)

  predicate UnsafeOdd(n: int) {
    n % 2 == 1 && !(-MAX_SAFE <= n <= MAX_SAFE)
  }

  ghost predicate HostOk(host: Host) {
    && (forall n :: host.bigOf(Str(Decimal(n))) == Some(n))
    && (forall n :: -MAX_SAFE <= n <= MAX_SAFE ==> host.readInt(n) == Num(n) && host.bigOf(Num(n)) == Some(n))
    && (forall n :: UnsafeOdd(n) ==> host.readInt(n) != Num(n))
    && (forall n :: host.readInt(n).Num? || (host.readInt(n).Lit? && IsLitText(host.readInt(n).text)))
  }

  // ----- JSON.stringify with the bigint replacer, and JSON.parse -----

  function WireValue(v: Value): Value {
    match v
    case Big(n) => Str(Decimal(n))
    case Arr(items) => Arr(WireItems(items))
    case Obj(fields) => Obj(WireFields(fields))
    case _ => v
  }

  function WireItems(items: Items): Items {
    match items
    case INil => INil
    case ICons(h, t) => ICons(WireValue(h), WireItems(t))
  }

  function WireFields(fs: Fields): (r: Fields)
    ensures Keys(r) == Keys(fs)
  {
    match fs
    case FNil => FNil
    case FCons(k, v, r) => FCons(k, WireValue(v), WireFields(r))
  }

  function WireText(v: Value): JsStr {
    Stringify(WireValue(v))
  }

  function ReadValue(host: Host, v: Value): Value {
    match v
    case Num(n) => host.readInt(n)
    case Arr(items) => Arr(ReadItems(host, items))
    case Obj(fields) => Obj(ReadFields(host, fields))
    case _ => v
  }

  function ReadItems(host: Host, items: Items): Items {
    match items
    case INil => INil
    case ICons(h, t) => ICons(ReadValue(host, h), ReadItems(host, t))
  }

  function ReadFields(host: Host, fs: Fields): (r: Fields)
    ensures Keys(r) == Keys(fs)
  {
    match fs
    case FNil => FNil
    case FCons(k, v, r) => FCons(k, ReadValue(host, v), ReadFields(host, r))
  }

  function JsonParse(host: Host, text: JsStr): Option<Value> {
    var v :- Parse(text);
    Some(ReadValue(host, v))
  }

  /** Every integer number leaf is the text of a JavaScript number; bigints are not restricted. */
  predicate JsNumbers(host: Host, v: Value) {
    match v
    case Num(n) => host.readInt(n) == Num(n)
    case Arr(items) => JsNumbersItems(host, items)
    case Obj(fields) => JsNumbersFields(host, fields)
    case _ => true
  }

  predicate JsNumbersItems(host: Host, items: Items) {
    match items
    case INil => true
    case ICons(h, t) => JsNumbers(host, h) && JsNumbersItems(host, t)
  }

  predicate JsNumbersFields(host: Host, fs: Fields) {
    match fs
    case FNil => true
    case FCons(_, v, r) => JsNumbers(host, v) && JsNumbersFields(host, r)
  }

  lemma {:induction false} WireValueShape(host: Host, v: Value)
    requires Wf(v) && JsNumbers(host, v)
    ensures Wf(WireValue(v)) && Plain(WireValue(v)) && ReadValue(host, WireValue(v)) == WireValue(v)
    decreases v
  {
    match v
    case Arr(items) => WireItemsShape(host, items);
    case Obj(fields) => WireFieldsShape(host, fields);
    case _ =>
  }

  lemma {:induction false} WireItemsShape(host: Host, items: Items)
    requires WfItems(items) && JsNumbersItems(host, items)
    ensures WfItems(WireItems(items)) && PlainItems(WireItems(items))
    ensures ReadItems(host, WireItems(items)) == WireItems(items)
    decreases items
  {
    if items.ICons? {
      WireValueShape(host, items.head);
      WireItemsShape(host, items.tail);
    }
  }

  lemma {:induction false} WireFieldsShape(host: Host, fs: Fields)
    requires WfFields(fs) && Distinct(fs) && JsNumbersFields(host, fs)
    ensures WfFields(WireFields(fs)) && Distinct(WireFields(fs)) && PlainFields(WireFields(fs))
    ensures ReadFields(host, WireFields(fs)) == WireFields(fs)
    decreases fs
  {
    if fs.FCons? {
      WireValueShape(host, fs.val);
      WireFieldsShape(host, fs.rest);
    }
  }

  lemma {:induction false} WireFieldsGet(fs: Fields, key: JsStr)
    requires key in Keys(fs)
    ensures Get(WireFields(fs), key) == WireValue(Get(fs, key))
  {
    if fs.key != key {
      WireFieldsGet(fs.rest, key);
    }
  }

  lemma NumbersStep(host: Host, key: JsStr, val: Value, rest: Fields)
    ensures JsNumbersFields(host, FCons(key, val, rest)) <==> JsNumbers(host, val) && JsNumbersFields(host, rest)
  {
  }

  /** Two and three fields with different keys. */
  lemma TwoFields(host: Host, k1: JsStr, v1: Value, k2: JsStr, v2: Value)
    requires k1 != k2
    ensures var fs := FCons(k1, v1, FCons(k2, v2, FNil));
            && Keys(fs) == {k1, k2} && Distinct(fs)
            && (WfFields(fs) <==> Wf(v1) && Wf(v2))
            && (JsNumbersFields(host, fs) <==> JsNumbers(host, v1) && JsNumbers(host, v2))
            && Get(fs, k1) == v1 && Get(fs, k2) == v2
  {
    TwoKeys(k1, v1, k2, v2);
    NumbersStep(host, k2, v2, FNil);
    NumbersStep(host, k1, v1, FCons(k2, v2, FNil));
  }

  lemma ThreeFields(host: Host, k1: JsStr, v1: Value, k2: JsStr, v2: Value, k3: JsStr, v3: Value)
    requires k1 != k2 && k1 != k3 && k2 != k3
    ensures var fs := FCons(k1, v1, FCons(k2, v2, FCons(k3, v3, FNil)));
            && Keys(fs) == {k1, k2, k3} && Distinct(fs)
            && (WfFields(fs) <==> Wf(v1) && Wf(v2) && Wf(v3))
            && (JsNumbersFields(host, fs) <==> JsNumbers(host, v1) && JsNumbers(host, v2) && JsNumbers(host, v3))
            && Get(fs, k1) == v1 && Get(fs, k2) == v2 && Get(fs, k3) == v3
  {
    TwoFields(host, k2, v2, k3, v3);
    FieldsStep(k1, v1, FCons(k2, v2, FCons(k3, v3, FNil)));
    NumbersStep(host, k1, v1, FCons(k2, v2, FCons(k3, v3, FNil)));
  }

  /** What the consumer parses is the produced value with its bigints as decimal strings. */
  lemma WireRead(host: Host, v: Value)
    requires Wf(v) && JsNumbers(host, v)
    ensures JsonParse(host, WireText(v)) == Some(WireValue(v))
  {
    WireValueShape(host, v);
    ParseStringify(WireValue(v));
  }

  // ----- schemas -----

  datatype Schema =
    | Text(accepts: JsStr -> bool)
    | Number(allows: Value -> bool)
    | BigInteger
    | Literal(text: JsStr)
    | Record(shape: Shape)
    | OneOf(tag: JsStr, choices: Choices)

  datatype Shape = End | Field(key: JsStr, schema: Schema, rest: Shape)

  datatype Choices = NoChoice | Choice(name: JsStr, shape: Shape, rest: Choices)

  function ShapeKeys(shape: Shape): set<JsStr> {
    match shape
    case End => {}
    case Field(k, _, r) => {k} + ShapeKeys(r)
  }

  predicate SchemaOk(schema: Schema) {
    match schema
    case Record(shape) => ShapeOk(shape)
    case OneOf(_, choices) => ChoicesOk(choices)
    case _ => true
  }

  predicate ShapeOk(shape: Shape) {
    match shape
    case End => true
    case Field(k, s, r) => k !in ShapeKeys(r) && SchemaOk(s) && ShapeOk(r)
  }

  predicate ChoicesOk(choices: Choices) {
    match choices
    case NoChoice => true
    case Choice(_, shape, r) => ShapeOk(shape) && ChoicesOk(r)
  }

  /** `safeParse(v).data`, None when parsing fails. Objects keep only the keys of the shape. */
  function Decode(host: Host, schema: Schema, v: Value): Option<Value> {
    match schema
    case Text(accepts) => if v.Str? && accepts(v.s) then Some(v) else None
    case Number(allows) => if (v.Num? || v.Lit?) && allows(v) then Some(v) else None
    case BigInteger =>
      var n :- host.bigOf(v);
      Some(Big(n))
    case Literal(text) => if v == Str(text) then Some(v) else None
    case Record(shape) =>
      if v.Obj? then
        var out :- DecodeShape(host, shape, v.fields);
        Some(Obj(out))
      else None
    case OneOf(tag, choices) =>
      if v.Obj? && tag in Keys(v.fields) then DecodeChoice(host, choices, Get(v.fields, tag), v.fields) else None
  }

  function DecodeShape(host: Host, shape: Shape, fs: Fields): (r: Option<Fields>)
    ensures r.Some? ==> Keys(r.value) == ShapeKeys(shape) <= Keys(fs)
  {
    match shape
    case End => Some(FNil)
    case Field(k, s, rest) =>
      if k !in Keys(fs) then None
      else
        var v :- Decode(host, s, Get(fs, k));
        var more :- DecodeShape(host, rest, fs);
        Some(FCons(k, v, more))
  }

  function DecodeChoice(host: Host, choices: Choices, name: Value, fs: Fields): Option<Value> {
    match choices
    case NoChoice => None
    case Choice(n, shape, rest) =>
      if name == Str(n) then
        var out :- DecodeShape(host, shape, fs);
        Some(Obj(out))
      else DecodeChoice(host, rest, name, fs)
  }

  // ----- when decoding what was sent gives back what was sent -----

  /** The leaves have the declared types: strings where strings are declared, bigints (or exactly
      represented integer numbers) where bigints are. */
  predicate Typed(host: Host, schema: Schema, x: Value) {
    match schema
    case Text(_) => x.Str?
    case Number(_) => true
    case BigInteger => x.Big? || (x.Num? && host.bigOf(x) == Some(x.n))
    case Literal(_) => x.Str?
    case Record(shape) => x.Obj? && TypedShape(host, shape, x.fields)
    case OneOf(tag, choices) =>
      x.Obj? && tag in Keys(x.fields) && TypedChoice(host, choices, WireValue(Get(x.fields, tag)), x.fields)
  }

  predicate TypedShape(host: Host, shape: Shape, fs: Fields) {
    match shape
    case End => true
    case Field(k, s, rest) => k in Keys(fs) && Typed(host, s, Get(fs, k)) && TypedShape(host, rest, fs)
  }

  predicate TypedChoice(host: Host, choices: Choices, name: Value, fs: Fields) {
    match choices
    case NoChoice => false
    case Choice(n, shape, rest) =>
      if name == Str(n) then TypedShape(host, shape, fs) else TypedChoice(host, rest, name, fs)
  }

  /** No object has a key that its shape does not list. */
  predicate NoExtraKeys(schema: Schema, x: Value) {
    match schema
    case Record(shape) => x.Obj? && Keys(x.fields) <= ShapeKeys(shape) && NoExtraInShape(shape, x.fields)
    case OneOf(tag, choices) =>
      x.Obj? && tag in Keys(x.fields) && NoExtraInChoice(choices, WireValue(Get(x.fields, tag)), x.fields)
    case _ => true
  }

  predicate NoExtraInShape(shape: Shape, fs: Fields) {
    match shape
    case End => true
    case Field(k, s, rest) => k in Keys(fs) && NoExtraKeys(s, Get(fs, k)) && NoExtraInShape(rest, fs)
  }

  predicate NoExtraInChoice(choices: Choices, name: Value, fs: Fields) {
    match choices
    case NoChoice => false
    case Choice(n, shape, rest) =>
      if name == Str(n) then Keys(fs) <= ShapeKeys(shape) && NoExtraInShape(shape, fs)
      else NoExtraInChoice(rest, name, fs)
  }

  lemma EquivObjects(a: Fields, b: Fields)
    requires Distinct(a)
    ensures Equiv(Obj(a), Obj(b)) <==>
            Keys(a) == Keys(b) && forall k :: k in Keys(a) ==> k in Keys(b) && Equiv(Get(a, k), Get(b, k))
  {
    if Equiv(Obj(a), Obj(b)) {
      forall k | k in Keys(a) ensures Equiv(Get(a, k), Get(b, k)) {
        EquivFieldsAt(a, b, k);
      }
    }
    if Keys(a) == Keys(b) && forall k :: k in Keys(a) ==> k in Keys(b) && Equiv(Get(a, k), Get(b, k)) {
      EquivFieldsFrom(a, b);
    }
  }

  lemma {:induction false} DecodeShapeKeeps(host: Host, shape: Shape, fs: Fields)
    requires HostOk(host) && ShapeOk(shape) && Distinct(fs) && WfFields(fs)
    requires DecodeShape(host, shape, WireFields(fs)).Some?
    ensures var out := DecodeShape(host, shape, WireFields(fs)).value;
            && Distinct(out) && WfFields(out)
            && ((forall k :: k in ShapeKeys(shape) ==> Equiv(Get(fs, k), Get(out, k)))
                <==> TypedShape(host, shape, fs) && NoExtraInShape(shape, fs))
    decreases shape, 0
  {
    if shape.Field? {
      var k := shape.key;
      WireFieldsGet(fs, k);
      WfGet(fs, k);
      DecodeKeeps(host, shape.schema, Get(fs, k));
      DecodeShapeKeeps(host, shape.rest, fs);
      var out := DecodeShape(host, shape, WireFields(fs)).value;
      assert Get(out, k) == out.val;
      assert forall j :: j in ShapeKeys(shape.rest) ==> j != k && Get(out, j) == Get(out.rest, j);
      assert (forall j :: j in ShapeKeys(shape) ==> Equiv(Get(fs, j), Get(out, j)))
        <==> Equiv(Get(fs, k), out.val)
             && forall j :: j in ShapeKeys(shape.rest) ==> Equiv(Get(fs, j), Get(out.rest, j));
    }
  }

  lemma DecodeObjectKeeps(host: Host, shape: Shape, fs: Fields)
    requires HostOk(host) && ShapeOk(shape) && Distinct(fs) && WfFields(fs)
    requires DecodeShape(host, shape, WireFields(fs)).Some?
    ensures var out := DecodeShape(host, shape, WireFields(fs)).value;
            && Wf(Obj(out))
            && (Equiv(Obj(fs), Obj(out))
                <==> TypedShape(host, shape, fs) && Keys(fs) <= ShapeKeys(shape) && NoExtraInShape(shape, fs))
    decreases shape, 1
  {
    var out := DecodeShape(host, shape, WireFields(fs)).value;
    DecodeShapeKeeps(host, shape, fs);
    EquivObjects(fs, out);
  }

  lemma {:induction false} DecodeChoiceKeeps(host: Host, choices: Choices, name: Value, fs: Fields)
    requires HostOk(host) && ChoicesOk(choices) && Distinct(fs) && WfFields(fs)
    requires DecodeChoice(host, choices, name, WireFields(fs)).Some?
    ensures var out := DecodeChoice(host, choices, name, WireFields(fs)).value;
            && Wf(out)
            && (Equiv(Obj(fs), out) <==> TypedChoice(host, choices, name, fs) && NoExtraInChoice(choices, name, fs))
    decreases choices
  {
    if choices.Choice? {
      if name == Str(choices.name) {
        DecodeObjectKeeps(host, choices.shape, fs);
      } else {
        DecodeChoiceKeeps(host, choices.rest, name, fs);
      }
    }
  }

  /** Decoding the wire form of x yields something equivalent to x exactly when x has the declared
      leaf types and no key is dropped at any depth. */
  lemma {:induction false} DecodeKeeps(host: Host, schema: Schema, x: Value)
    requires HostOk(host) && SchemaOk(schema) && Wf(x)
    requires Decode(host, schema, WireValue(x)).Some?
    ensures Wf(Decode(host, schema, WireValue(x)).value)
    ensures Equiv(x, Decode(host, schema, WireValue(x)).value) <==> Typed(host, schema, x) && NoExtraKeys(schema, x)
    decreases schema
  {
    match schema
    case Record(shape) =>
      DecodeObjectKeeps(host, shape, x.fields);
    case OneOf(tag, choices) =>
      WireFieldsGet(x.fields, tag);
      DecodeChoiceKeeps(host, choices, WireValue(Get(x.fields, tag)), x.fields);
    case _ =>
  }
}
