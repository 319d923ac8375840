/** `canonicalizeJson`: the text that envelopes are signed over. A printer, a parser for its
    output, and the proof that the text determines the value up to `Equiv`. */
module CanonicalJson {
  import opened Wrappers
  import opened JsStrings
  import opened JsonValues

  const NULL_TEXT: JsStr := Js("null")
  const TRUE_TEXT: JsStr := Js("true")
  const FALSE_TEXT: JsStr := Js("false")

  // ----- the printer -----

  function Canonicalize(v: Value): JsStr
    decreases Size(v)
  {
    match v
    case Null => NULL_TEXT
    case Bool(b) => if b then TRUE_TEXT else FALSE_TEXT
    case Str(s) => Quote(s)
    case Num(n) => Decimal(n)
    case Lit(t) => t
    case Big(n) => Decimal(n)
    case Arr(items) => [LBRACKET] + JoinItems(items) + [RBRACKET]
    case Obj(fields) => [LBRACE] + JoinPairs(SortFields(fields)) + [RBRACE]
  }

  function JoinItems(items: Items): JsStr
    decreases ItemsSize(items)
  {
    match items
    case INil => []
    case ICons(h, INil) => Canonicalize(h)
    case ICons(h, t) => Canonicalize(h) + [COMMA] + JoinItems(t)
  }

  function JoinPairs(fs: Fields): JsStr
    decreases FieldsSize(fs)
  {
    match fs
    case FNil => []
    case FCons(k, v, FNil) => Quote(k) + [COLON] + Canonicalize(v)
    case FCons(k, v, r) => Quote(k) + [COLON] + Canonicalize(v) + [COMMA] + JoinPairs(r)
  }

  // ----- JSON.stringify: fields in their own order, the text placed in front of `k` -----

  function PrintTo(v: Value, k: JsStr): JsStr {
    match v
    case Null => NULL_TEXT + k
    case Bool(b) => (if b then TRUE_TEXT else FALSE_TEXT) + k
    case Str(s) => [QUOTE] + (Escape(s) + ([QUOTE] + k))
    case Num(n) => Decimal(n) + k
    case Lit(t) => t + k
    case Big(n) => Decimal(n) + k
    case Arr(items) => if items.INil? then [LBRACKET, RBRACKET] + k else [LBRACKET] + PrintItemsTo(items, k)
    case Obj(fields) => if fields.FNil? then [LBRACE, RBRACE] + k else [LBRACE] + PrintFieldsTo(fields, k)
  }

  function PrintItemsTo(items: Items, k: JsStr): JsStr
    requires items.ICons?
  {
    PrintTo(items.head, if items.tail.INil? then [RBRACKET] + k else [COMMA] + PrintItemsTo(items.tail, k))
  }

  function PrintFieldsTo(fs: Fields, k: JsStr): JsStr
    requires fs.FCons?
  {
    [QUOTE] + (Escape(fs.key) + ([QUOTE] + ([COLON] +
    PrintTo(fs.val, if fs.rest.FNil? then [RBRACE] + k else [COMMA] + PrintFieldsTo(fs.rest, k)))))
  }

  function Stringify(v: Value): JsStr {
    PrintTo(v, [])
  }

  // ----- the parser (RFC 8259 without insignificant white space) -----

  function ParseValue(s: JsStr): (r: Option<(Value, JsStr)>)
    ensures r.Some? ==> |r.value.1| < |s|
    decreases |s|, 0
  {
    if s == [] then None
    else if s[0] == QUOTE then
      var (t, rest) :- Unquote(s[1..]);
      Some((Str(t), rest))
    else if s[0] == LBRACKET then
      if |s| >= 2 && s[1] == RBRACKET then Some((Arr(INil), s[2..]))
      else
        var (items, rest) :- ParseItems(s[1..]);
        Some((Arr(items), rest))
    else if s[0] == LBRACE then
      if |s| >= 2 && s[1] == RBRACE then Some((Obj(FNil), s[2..]))
      else
        var (fields, rest) :- ParseFields(s[1..]);
        Some((Obj(fields), rest))
    else if NULL_TEXT <= s then Some((Null, s[4..]))
    else if TRUE_TEXT <= s then Some((Bool(true), s[4..]))
    else if FALSE_TEXT <= s then Some((Bool(false), s[5..]))
    else ParseNumber(s)
  }

  function ParseNumber(s: JsStr): (r: Option<(Value, JsStr)>)
    ensures r.Some? ==> |r.value.1| < |s|
  {
    var n := NumSpan(s);
    var token := s[..n];
    if IsIntText(token) then Some((Num(IntOf(token)), s[n..]))
    else if IsLitText(token) then Some((Lit(token), s[n..]))
    else None
  }

  function ParseItems(s: JsStr): (r: Option<(Items, JsStr)>)
    ensures r.Some? ==> |r.value.1| < |s|
    decreases |s|, 1
  {
    var (v, rest) :- ParseValue(s);
    if rest != [] && rest[0] == RBRACKET then Some((ICons(v, INil), rest[1..]))
    else if rest != [] && rest[0] == COMMA then
      var (more, end) :- ParseItems(rest[1..]);
      Some((ICons(v, more), end))
    else None
  }

  function ParseFields(s: JsStr): (r: Option<(Fields, JsStr)>)
    ensures r.Some? ==> |r.value.1| < |s|
    decreases |s|, 1
  {
    if s == [] || s[0] != QUOTE then None
    else
      var (key, colon) :- Unquote(s[1..]);
      if colon == [] || colon[0] != COLON then None
      else
        var (v, rest) :- ParseValue(colon[1..]);
        if rest != [] && rest[0] == RBRACE then Some((FCons(key, v, FNil), rest[1..]))
        else if rest != [] && rest[0] == COMMA then
          var (more, end) :- ParseFields(rest[1..]);
          Some((FCons(key, v, more), end))
        else None
  }

  function Parse(s: JsStr): Option<Value> {
    var (v, rest) :- ParseValue(s);
    if rest == [] then Some(v) else None
  }

  // ----- what is printed is parsed back -----

  lemma ParseNumberToken(t: JsStr, k: JsStr)
    requires (IsIntText(t) || IsLitText(t)) && Stops(k)
    ensures ParseNumber(t + k) == Some((if IsIntText(t) then Num(IntOf(t)) else Lit(t), k))
  {
    NumSpanToken(t, k);
    var s := t + k;
    assert s[..|t|] == t && s[|t|..] == k;
  }

  lemma ParseStartsNumber(s: JsStr)
    requires s != [] && (IsDigit(s[0]) || s[0] == MINUS)
    ensures ParseValue(s) == ParseNumber(s)
  {
  }

  lemma ParseNumberValue(t: JsStr, k: JsStr)
    requires (IsIntText(t) || IsLitText(t)) && Stops(k)
    ensures ParseValue(t + k) == Some((if IsIntText(t) then Num(IntOf(t)) else Lit(t), k))
  {
    assert (t + k)[0] == t[0];
    ParseStartsNumber(t + k);
    ParseNumberToken(t, k);
  }

  lemma FirstUnit(v: Value, k: JsStr)
    requires Plain(v) && Wf(v)
    ensures PrintTo(v, k) != [] && PrintTo(v, k)[0] != RBRACKET
  {
  }

  lemma ParseKeyword(v: Value, k: JsStr)
    requires v.Null? || v.Bool?
    ensures ParseValue(PrintTo(v, k)) == Some((v, k))
  {
  }

  lemma {:induction false} ParsePrint(v: Value, k: JsStr)
    requires Plain(v) && Wf(v) && Stops(k)
    ensures ParseValue(PrintTo(v, k)) == Some((v, k))
    decreases v
  {
    var s := PrintTo(v, k);
    match v
    case Null =>
      ParseKeyword(v, k);
    case Bool(b) =>
      ParseKeyword(v, k);
    case Str(t) =>
      UnquoteEscape(t, k);
      assert s[1..] == Escape(t) + ([QUOTE] + k);
    case Num(n) =>
      IntOfDecimal(n);
      ParseNumberValue(Decimal(n), k);
    case Lit(t) =>
      ParseNumberValue(t, k);
    case Arr(items) =>
      if items.INil? {
        assert s[2..] == k;
      } else {
        ParsePrintItems(items, k);
        FirstUnit(items.head, if items.tail.INil? then [RBRACKET] + k else [COMMA] + PrintItemsTo(items.tail, k));
        assert s[1..] == PrintItemsTo(items, k);
      }
    case Obj(fields) =>
      if fields.FNil? {
        assert s[2..] == k;
      } else {
        ParsePrintFields(fields, k);
        assert s[1..] == PrintFieldsTo(fields, k);
      }
  }

  lemma {:induction false} ParsePrintItems(items: Items, k: JsStr)
    requires items.ICons? && PlainItems(items) && WfItems(items)
    ensures ParseItems(PrintItemsTo(items, k)) == Some((items, k))
    decreases items
  {
    var after := if items.tail.INil? then [RBRACKET] + k else [COMMA] + PrintItemsTo(items.tail, k);
    ParsePrint(items.head, after);
    if items.tail.ICons? {
      ParsePrintItems(items.tail, k);
      assert after[1..] == PrintItemsTo(items.tail, k);
    } else {
      assert after[1..] == k;
    }
  }

  lemma {:induction false} ParsePrintFields(fs: Fields, k: JsStr)
    requires fs.FCons? && PlainFields(fs) && WfFields(fs)
    ensures ParseFields(PrintFieldsTo(fs, k)) == Some((fs, k))
    decreases fs
  {
    var after := if fs.rest.FNil? then [RBRACE] + k else [COMMA] + PrintFieldsTo(fs.rest, k);
    var value := PrintTo(fs.val, after);
    ParsePrint(fs.val, after);
    UnquoteEscape(fs.key, [COLON] + value);
    var s := PrintFieldsTo(fs, k);
    assert s[1..] == Escape(fs.key) + ([QUOTE] + ([COLON] + value));
    assert ([COLON] + value)[1..] == value;
    if fs.rest.FCons? {
      ParsePrintFields(fs.rest, k);
      assert after[1..] == PrintFieldsTo(fs.rest, k);
    } else {
      assert after[1..] == k;
    }
  }

  /** JSON.parse undoes JSON.stringify on every bigint-free value, keys in the same order. */
  lemma ParseStringify(v: Value)
    requires Plain(v) && Wf(v)
    ensures Parse(Stringify(v)) == Some(v)
  {
    ParsePrint(v, []);
  }

  // ----- the canonical text is the plain text of the normal form -----

  lemma Bracketed(open: Unit, body: JsStr, close: Unit, k: JsStr)
    ensures [open] + body + [close] + k == [open] + (body + ([close] + k))
  {
  }

  lemma QuoteIsPrint(s: JsStr, k: JsStr)
    ensures Quote(s) + k == PrintTo(Str(s), k)
  {
  }

  lemma {:induction false} CanonicalizeIsPrint(v: Value, k: JsStr)
    ensures Canonicalize(v) + k == PrintTo(Normalize(v), k)
    decreases Size(v)
  {
    match v
    case Str(s) =>
      QuoteIsPrint(s, k);
    case Arr(items) =>
      if items.ICons? {
        JoinItemsIsPrint(items, k);
        Bracketed(LBRACKET, JoinItems(items), RBRACKET, k);
      } else {
        assert [LBRACKET] + [] + [RBRACKET] == [LBRACKET, RBRACKET];
      }
    case Obj(fields) =>
      var s := SortFields(fields);
      if s.FCons? {
        JoinPairsIsPrint(s, k);
        Bracketed(LBRACE, JoinPairs(s), RBRACE, k);
      } else {
        assert [LBRACE] + [] + [RBRACE] == [LBRACE, RBRACE];
      }
    case _ =>
  }

  lemma {:induction false} JoinItemsIsPrint(items: Items, k: JsStr)
    requires items.ICons?
    ensures JoinItems(items) + ([RBRACKET] + k) == PrintItemsTo(NormalizeItems(items), k)
    decreases ItemsSize(items)
  {
    if items.tail.INil? {
      CanonicalizeIsPrint(items.head, [RBRACKET] + k);
    } else {
      JoinItemsIsPrint(items.tail, k);
      var after := [COMMA] + PrintItemsTo(NormalizeItems(items.tail), k);
      CanonicalizeIsPrint(items.head, after);
      assert JoinItems(items) + ([RBRACKET] + k)
          == Canonicalize(items.head) + ([COMMA] + (JoinItems(items.tail) + ([RBRACKET] + k)));
    }
  }

  lemma PairText(key: JsStr, body: JsStr, after: JsStr)
    ensures Quote(key) + [COLON] + body + after
         == [QUOTE] + (Escape(key) + ([QUOTE] + ([COLON] + (body + after))))
  {
  }

  lemma PairsText(fs: Fields, k: JsStr)
    requires fs.FCons? && fs.rest.FCons?
    ensures JoinPairs(fs) + k
         == Quote(fs.key) + [COLON] + Canonicalize(fs.val) + ([COMMA] + (JoinPairs(fs.rest) + k))
  {
  }

  lemma {:induction false} JoinPairsIsPrint(fs: Fields, k: JsStr)
    requires fs.FCons?
    ensures JoinPairs(fs) + ([RBRACE] + k) == PrintFieldsTo(NormalizeFields(fs), k)
    decreases FieldsSize(fs)
  {
    var end := [RBRACE] + k;
    if fs.rest.FNil? {
      CanonicalizeIsPrint(fs.val, end);
      PairText(fs.key, Canonicalize(fs.val), end);
    } else {
      JoinPairsIsPrint(fs.rest, k);
      var after := [COMMA] + (JoinPairs(fs.rest) + end);
      CanonicalizeIsPrint(fs.val, after);
      PairsText(fs, end);
      PairText(fs.key, Canonicalize(fs.val), after);
    }
  }

  // ----- main results -----

  /** Parsing canonical text gives the value back with sorted keys and plain integers,
      and canonicalizing that gives the same text. */
  lemma ParseCanonical(v: Value)
    requires Wf(v)
    ensures Parse(Canonicalize(v)) == Some(Normalize(v))
    ensures Equiv(Normalize(v), v) && Wf(Normalize(v)) && Plain(Normalize(v))
    ensures Canonicalize(Normalize(v)) == Canonicalize(v)
  {
    NormalizeWf(v);
    NormalizeIdempotent(v);
    EquivIsNormalEquality(Normalize(v), v);
    CanonicalizeIsPrint(v, []);
    CanonicalizeIsPrint(Normalize(v), []);
    assert Canonicalize(v) + [] == Canonicalize(v);
    assert Canonicalize(Normalize(v)) + [] == Canonicalize(Normalize(v));
    ParseStringify(Normalize(v));
  }

  /** Two values have the same canonical text exactly when they are equal up to key order and the
      identification of bigints with integer numbers. */
  lemma CanonicalizeInjective(a: Value, b: Value)
    requires Wf(a) && Wf(b)
    ensures Canonicalize(a) == Canonicalize(b) <==> Equiv(a, b)
  {
    ParseCanonical(a);
    ParseCanonical(b);
    EquivIsNormalEquality(a, b);
  }

  /** `Equiv` is an equivalence on well-formed values. */
  lemma EquivSymmetric(a: Value, b: Value)
    requires Wf(a) && Wf(b) && Equiv(a, b)
    ensures Equiv(b, a)
  {
    EquivIsNormalEquality(a, b);
    EquivIsNormalEquality(b, a);
  }

  lemma EquivTransitive(a: Value, b: Value, c: Value)
    requires Wf(a) && Wf(b) && Wf(c) && Equiv(a, b) && Equiv(b, c)
    ensures Equiv(a, c)
  {
    EquivIsNormalEquality(a, b);
    EquivIsNormalEquality(b, c);
    EquivIsNormalEquality(a, c);
  }

  /** The printed keys ascend by code units at every depth. */
  lemma PrintedKeysAscend(v: Value)
    requires Wf(v)
    ensures Parse(Canonicalize(v)).Some? && Ascending(Parse(Canonicalize(v)).value)
  {
    ParseCanonical(v);
    NormalizeAscends(v);
  }

  // ----- one text, written out -----

  /** {b: [true, false, null, {}], a: -120n} */
  const SAMPLE_ITEMS: Items := ICons(Bool(true), ICons(Bool(false), ICons(Null, ICons(Obj(FNil), INil))))

  const SAMPLE: Value := Obj(FCons([98], Arr(SAMPLE_ITEMS), FCons([97], Big(-120), FNil)))

  lemma SampleItems()
    ensures JoinItems(SAMPLE_ITEMS) == Js("true,") + (Js("false,") + (Js("null,") + Js("{}")))
  {
    var empty := ICons(Obj(FNil), INil);
    var nul := ICons(Null, empty);
    assert JoinItems(empty) == Js("{}");
    assert JoinItems(nul) == Js("null,") + Js("{}") by {
      assert NULL_TEXT + [COMMA] == Js("null,");
    }
    assert JoinItems(ICons(Bool(false), nul)) == Js("false,") + (Js("null,") + Js("{}")) by {
      assert FALSE_TEXT + [COMMA] == Js("false,");
    }
    assert TRUE_TEXT + [COMMA] == Js("true,");
  }

  lemma OneUnit(u: Unit)
    requires EscapeUnit(u) == [u]
    ensures Quote([u]) == [34, u, 34]
  {
    assert Escape([u]) == EscapeUnit(u) + [] == [u];
  }

  lemma SampleSorted()
    ensures SortFields(SAMPLE.fields) == FCons([97], Big(-120), FCons([98], Arr(SAMPLE_ITEMS), FNil))
  {
    assert SortFields(SAMPLE.fields.rest) == SAMPLE.fields.rest;
    assert !Less([98], [97]);
  }

  lemma SampleUnits()
    ensures Js("\"b\":[") == [34, 98, 34, 58, 91] && Js("]") == [93]
    ensures Js("\"a\":-120,") == [34, 97, 34, 58, 45, 49, 50, 48, 44]
    ensures Decimal(-120) == [45, 49, 50, 48]
  {
    DecimalTexts();
  }

  lemma SampleLast()
    ensures JoinPairs(FCons([98], Arr(SAMPLE_ITEMS), FNil)) == Js("\"b\":[") + JoinItems(SAMPLE_ITEMS) + Js("]")
  {
    OneUnit(98);
    SampleUnits();
    assert [34, 98, 34] + [COLON] + [LBRACKET] == [34, 98, 34, 58, 91];
  }

  lemma SampleFirst(rest: Fields)
    requires rest.FCons?
    ensures JoinPairs(FCons([97], Big(-120), rest)) == Js("\"a\":-120,") + JoinPairs(rest)
  {
    OneUnit(97);
    SampleUnits();
    assert [34, 97, 34] + [COLON] + [45, 49, 50, 48] + [COMMA] == [34, 97, 34, 58, 45, 49, 50, 48, 44];
  }

  /** Braces, brackets, commas, colons and words, for an object with its keys in the wrong order. */
  lemma SampleText()
    ensures Canonicalize(SAMPLE)
         == Js("{") + (Js("\"a\":-120,") + (Js("\"b\":[") +
          (Js("true,") + (Js("false,") + (Js("null,") + Js("{}")))) + Js("]")))
          + Js("}")
  {
    var rest := FCons([98], Arr(SAMPLE_ITEMS), FNil);
    SampleSorted();
    SampleItems();
    SampleLast();
    SampleFirst(rest);
    assert [LBRACE] == Js("{") && [RBRACE] == Js("}");
    assert Canonicalize(SAMPLE) == [LBRACE] + JoinPairs(FCons([97], Big(-120), rest)) + [RBRACE];
  }
}
