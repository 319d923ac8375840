/** JavaScript strings as sequences of UTF-16 code units: the order `sort()` uses,
    the quoting `JSON.stringify` does, and decimal integers. */
module JsStrings {
  import opened Wrappers

  type Unit = u: int | 0 <= u < 0x10000

  type JsStr = seq<Unit>

  const BACKSPACE: Unit := 8
  const TAB: Unit := 9
  const NEWLINE: Unit := 10
  const FORM_FEED: Unit := 12
  const RETURN: Unit := 13
  const QUOTE: Unit := 34
  const PLUS: Unit := 43
  const COMMA: Unit := 44
  const MINUS: Unit := 45
  const DOT: Unit := 46
  const ZERO: Unit := 48
  const COLON: Unit := 58
  const UPPER_E: Unit := 69
  const LBRACKET: Unit := 91
  const BACKSLASH: Unit := 92
  const RBRACKET: Unit := 93
  const LOWER_E: Unit := 101
  const LOWER_U: Unit := 117
  const LBRACE: Unit := 123
  const RBRACE: Unit := 125

  /** An ASCII literal as code units. */
  function Js(s: string): (r: JsStr)
    requires forall i :: 0 <= i < |s| ==> s[i] as int < 128
    ensures |r| == |s|
    ensures forall i :: 0 <= i < |s| ==> r[i] == s[i] as int
  {
    seq(|s|, i requires 0 <= i < |s| => s[i] as int)
  }

  // ----- code-unit order -----

  predicate Less(a: JsStr, b: JsStr) {
    if b == [] then false
    else if a == [] then true
    else a[0] < b[0] || (a[0] == b[0] && Less(a[1..], b[1..]))
  }

  lemma LessTotal(a: JsStr, b: JsStr)
    ensures Less(a, b) || a == b || Less(b, a)
  {
  }

  lemma {:induction false} LessTransitive(a: JsStr, b: JsStr, c: JsStr)
    requires Less(a, b) && Less(b, c)
    ensures Less(a, c)
  {
    if a != [] && a[0] == b[0] == c[0] {
      LessTransitive(a[1..], b[1..], c[1..]);
    }
  }

  lemma {:induction false} LessIrreflexive(a: JsStr)
    ensures !Less(a, a)
  {
    if a != [] {
      LessIrreflexive(a[1..]);
    }
  }

  /** The two agree before n; there a ends or has the smaller unit. */
  predicate ComesFirstAt(a: JsStr, b: JsStr, n: int) {
    && 0 <= n <= |a| && n < |b|
    && (forall i :: 0 <= i < n ==> a[i] == b[i])
    && (n == |a| || a[n] < b[n])
  }

  /** The order of `sort()`: b properly extends a, or a has the smaller unit where they first differ. */
  ghost predicate ComesFirst(a: JsStr, b: JsStr) {
    exists n :: ComesFirstAt(a, b, n)
  }

  lemma {:induction false} LessIsComesFirst(a: JsStr, b: JsStr)
    ensures Less(a, b) <==> ComesFirst(a, b)
  {
    if b != [] && (a == [] || a[0] < b[0]) {
      assert ComesFirstAt(a, b, 0);
    } else if a != [] && b != [] && a[0] == b[0] {
      LessIsComesFirst(a[1..], b[1..]);
      if n :| ComesFirstAt(a[1..], b[1..], n) {
        ComesFirstTail(a, b, n + 1);
      }
      if n :| ComesFirstAt(a, b, n) {
        assert n > 0;
        ComesFirstTail(a, b, n);
      }
    }
  }

  lemma ComesFirstTail(a: JsStr, b: JsStr, n: int)
    requires a != [] && b != [] && a[0] == b[0] && n > 0
    ensures ComesFirstAt(a, b, n) <==> ComesFirstAt(a[1..], b[1..], n - 1)
  {
    if ComesFirstAt(a[1..], b[1..], n - 1) {
      forall i | 0 <= i < n ensures a[i] == b[i] {
        if i > 0 {
          assert a[i] == a[1..][i - 1] && b[i] == b[1..][i - 1];
        }
      }
    }
  }

  // ----- quoting -----

  predicate IsHigh(u: Unit) {
    0xD800 <= u < 0xDC00
  }

  predicate IsLow(u: Unit) {
    0xDC00 <= u < 0xE000
  }

  function HexDigit(d: int): Unit
    requires 0 <= d < 16
  {
    if d < 10 then 48 + d else 87 + d
  }

  function HexValue(u: Unit): Option<int> {
    if 48 <= u < 58 then Some(u - 48)
    else if 97 <= u < 103 then Some(u - 87)
    else if 65 <= u < 71 then Some(u - 55)
    else None
  }

  function UnicodeEscape(u: Unit): JsStr {
    [BACKSLASH, LOWER_U, HexDigit(u / 4096), HexDigit(u / 256 % 16), HexDigit(u / 16 % 16), HexDigit(u % 16)]
  }

  /** The letter after the backslash of a two-unit escape. */
  function ShortEscape(u: Unit): Option<Unit> {
    if u == QUOTE || u == BACKSLASH then Some(u)
    else if u == BACKSPACE then Some(98)
    else if u == TAB then Some(116)
    else if u == NEWLINE then Some(110)
    else if u == FORM_FEED then Some(102)
    else if u == RETURN then Some(114)
    else None
  }

  function ShortUnescape(u: Unit): Option<Unit> {
    if u == QUOTE || u == BACKSLASH || u == 47 then Some(u)
    else if u == 98 then Some(BACKSPACE)
    else if u == 116 then Some(TAB)
    else if u == 110 then Some(NEWLINE)
    else if u == 102 then Some(FORM_FEED)
    else if u == 114 then Some(RETURN)
    else None
  }

  function EscapeUnit(u: Unit): JsStr {
    if ShortEscape(u).Some? then [BACKSLASH, ShortEscape(u).value]
    else if u < 32 || IsHigh(u) || IsLow(u) then UnicodeEscape(u)
    else [u]
  }

  /** The inside of a JSON string: paired surrogates stay, lone ones are escaped. */
  function Escape(s: JsStr): JsStr {
    if s == [] then []
    else if |s| >= 2 && IsHigh(s[0]) && IsLow(s[1]) then [s[0], s[1]] + Escape(s[2..])
    else EscapeUnit(s[0]) + Escape(s[1..])
  }

  /** A high surrogate stays with a low one after it; all other pairs of units are escaped one by one. */
  lemma PairTexts(a: Unit, b: Unit)
    ensures Escape([a, b]) ==
            if 0xD800 <= a <= 0xDBFF && 0xDC00 <= b <= 0xDFFF then [a, b] else EscapeUnit(a) + EscapeUnit(b)
  {
    assert [a, b][1..] == [b] && [a, b][2..] == [] && [b][1..] == [];
    assert Escape([b]) == EscapeUnit(b) + [] == EscapeUnit(b);
  }

  predicate PlainAscii(s: JsStr) {
    forall i :: 0 <= i < |s| ==> 32 <= s[i] < 128 && s[i] != QUOTE && s[i] != BACKSLASH
  }

  lemma {:induction false} EscapePlain(s: JsStr)
    requires PlainAscii(s)
    ensures Escape(s) == s
  {
    if s != [] {
      EscapePlain(s[1..]);
      assert s == [s[0]] + s[1..];
    }
  }

  /** JSON.stringify of a string. */
  function Quote(s: JsStr): JsStr {
    [QUOTE] + Escape(s) + [QUOTE]
  }

  /** The short escapes, written out. */
  lemma ShortEscapeTexts()
    ensures EscapeUnit(8) == Js("\\b") && EscapeUnit(9) == Js("\\t") && EscapeUnit(10) == Js("\\n")
    ensures EscapeUnit(12) == Js("\\f") && EscapeUnit(13) == Js("\\r")
    ensures EscapeUnit(34) == Js("\\\"") && EscapeUnit(92) == Js("\\\\")
  {
  }

  /** Other controls and lone surrogates in lower-case hexadecimal, and everything else as it is. */
  lemma LongEscapeTexts(u: Unit)
    ensures EscapeUnit(31) == Js("\\u001f")
    ensures EscapeUnit(0xDEAB) == Js("\\udeab")
    ensures 32 <= u && u != 34 && u != 92 && !(0xD800 <= u < 0xE000) ==> EscapeUnit(u) == [u]
    ensures 0xD800 <= u < 0xE000 ==> EscapeUnit(u) == UnicodeEscape(u)
  {
    assert UnicodeEscape(31) == Js("\\u001f");
    assert UnicodeEscape(0xDEAB) == Js("\\udeab");
  }

  /** Reads a JSON string after its opening quote: the string and what follows the closing quote. */
  function Unquote(t: JsStr): (r: Option<(JsStr, JsStr)>)
    ensures r.Some? ==> |r.value.1| < |t|
  {
    if t == [] then None
    else if t[0] == QUOTE then Some(([], t[1..]))
    else if t[0] < 32 then None
    else if t[0] != BACKSLASH then Prepend(t[0], Unquote(t[1..]))
    else if |t| >= 2 && t[1] != LOWER_U then
      if ShortUnescape(t[1]).Some? then Prepend(ShortUnescape(t[1]).value, Unquote(t[2..])) else None
    else if |t| >= 6 && HexWord(t[2..6]).Some? then Prepend(HexWord(t[2..6]).value, Unquote(t[6..]))
    else None
  }

  function Prepend(u: Unit, r: Option<(JsStr, JsStr)>): Option<(JsStr, JsStr)> {
    match r
    case None => None
    case Some((s, rest)) => Some(([u] + s, rest))
  }

  function HexWord(t: JsStr): Option<Unit>
    requires |t| == 4
  {
    var a := HexValue(t[0]);
    var b := HexValue(t[1]);
    var c := HexValue(t[2]);
    var d := HexValue(t[3]);
    if a.Some? && b.Some? && c.Some? && d.Some?
    then Some(a.value * 4096 + b.value * 256 + c.value * 16 + d.value)
    else None
  }

  lemma HexWordEscape(u: Unit)
    ensures HexWord(UnicodeEscape(u)[2..]) == Some(u)
  {
    var a, b, c, d := u / 4096, u / 256 % 16, u / 16 % 16, u % 16;
    HexSplit(u);
    var t := UnicodeEscape(u)[2..];
    assert t[0] == HexDigit(a) && t[1] == HexDigit(b) && t[2] == HexDigit(c) && t[3] == HexDigit(d);
    HexValueDigit(a);
    HexValueDigit(b);
    HexValueDigit(c);
    HexValueDigit(d);
  }

  lemma HexSplit(u: int)
    requires 0 <= u < 0x10000
    ensures 0 <= u / 4096 < 16
    ensures u == u / 4096 * 4096 + u / 256 % 16 * 256 + u / 16 % 16 * 16 + u % 16
  {
    assert u / 256 == u / 4096 * 16 + u / 256 % 16;
    assert u / 16 == u / 256 * 16 + u / 16 % 16;
  }

  lemma HexValueDigit(d: int)
    requires 0 <= d < 16
    ensures HexValue(HexDigit(d)) == Some(d)
  {
  }

  lemma UnquoteShort(u: Unit, rest: JsStr)
    requires ShortEscape(u).Some?
    ensures Unquote(EscapeUnit(u) + rest) == Prepend(u, Unquote(rest))
  {
    var t := EscapeUnit(u) + rest;
    assert t[0] == BACKSLASH && t[1] == ShortEscape(u).value && t[2..] == rest;
  }

  lemma UnquoteUnicode(u: Unit, rest: JsStr)
    ensures Unquote(UnicodeEscape(u) + rest) == Prepend(u, Unquote(rest))
  {
    var e := UnicodeEscape(u);
    var t := e + rest;
    HexWordEscape(u);
    assert |e| == 6 && t[0] == BACKSLASH && t[1] == LOWER_U;
    assert t[2..6] == e[2..];
    assert t[6..] == rest;
  }

  lemma UnquoteUnit(u: Unit, rest: JsStr)
    ensures Unquote(EscapeUnit(u) + rest) == Prepend(u, Unquote(rest))
  {
    if ShortEscape(u).Some? {
      UnquoteShort(u, rest);
    } else if u < 32 || IsHigh(u) || IsLow(u) {
      UnquoteUnicode(u, rest);
    } else {
      UnquotePlain(u, rest);
    }
  }

  lemma UnquotePlain(u: Unit, rest: JsStr)
    requires u >= 32 && u != QUOTE && u != BACKSLASH
    ensures Unquote([u] + rest) == Prepend(u, Unquote(rest))
  {
  }

  lemma UnquotePair(h: Unit, l: Unit, rest: JsStr)
    requires IsHigh(h) && IsLow(l)
    ensures Unquote([h, l] + rest) == Prepend(h, Prepend(l, Unquote(rest)))
  {
  }

  lemma Regroup(a: JsStr, b: JsStr, c: JsStr)
    ensures (a + b) + c == a + (b + c)
  {
  }

  lemma {:induction false} UnquoteEscape(s: JsStr, k: JsStr)
    ensures Unquote(Escape(s) + ([QUOTE] + k)) == Some((s, k))
  {
    var tail := [QUOTE] + k;
    if s == [] {
      assert Escape(s) + tail == tail;
      assert tail[1..] == k;
    } else if |s| >= 2 && IsHigh(s[0]) && IsLow(s[1]) {
      UnquoteEscape(s[2..], k);
      Regroup([s[0], s[1]], Escape(s[2..]), tail);
      UnquotePair(s[0], s[1], Escape(s[2..]) + tail);
      assert s == [s[0]] + ([s[1]] + s[2..]);
    } else {
      UnquoteEscape(s[1..], k);
      Regroup(EscapeUnit(s[0]), Escape(s[1..]), tail);
      UnquoteUnit(s[0], Escape(s[1..]) + tail);
      assert s == [s[0]] + s[1..];
    }
  }

  // ----- decimal integers -----

  predicate IsDigit(u: Unit) {
    48 <= u < 58
  }

  predicate AllDigits(s: JsStr) {
    forall i :: 0 <= i < |s| ==> IsDigit(s[i])
  }

  function Digits(n: nat): (s: JsStr)
    ensures |s| >= 1 && AllDigits(s)
    ensures n > 0 ==> s[0] != ZERO
    ensures n == 0 ==> s == [ZERO]
  {
    if n < 10 then [48 + n] else Digits(n / 10) + [48 + n % 10]
  }

  /** `toString()` of a bigint, and the text of a number that is written without point or exponent. */
  function Decimal(n: int): JsStr {
    if n < 0 then [MINUS] + Digits(-n) else Digits(n)
  }

  lemma DecimalTexts()
    ensures Decimal(0) == Js("0") && Decimal(-120) == Js("-120") && Decimal(90) == Js("90")
  {
    assert Digits(1) == [49] && Digits(12) == [49, 50] && Digits(120) == [49, 50, 48];
    assert Digits(9) == [57] && Digits(90) == [57, 48];
  }

  function NatOf(s: JsStr): nat
    requires AllDigits(s)
  {
    if s == [] then 0 else 10 * NatOf(s[..|s| - 1]) + (s[|s| - 1] - 48)
  }

  lemma {:induction false} NatOfDigits(n: nat)
    ensures NatOf(Digits(n)) == n
  {
    if n < 10 {
      assert Digits(n)[..0] == [];
    } else {
      var s := Digits(n);
      assert s[..|s| - 1] == Digits(n / 10);
      NatOfDigits(n / 10);
    }
  }

  /** int = [ minus ] ( zero / digit1-9 *DIGIT ), section 6 of RFC 8259; "-0" is not an integer text here. */
  predicate IsNatText(t: JsStr) {
    |t| >= 1 && AllDigits(t) && (t[0] == ZERO ==> |t| == 1)
  }

  predicate IsIntText(t: JsStr) {
    IsNatText(t) || (|t| >= 2 && t[0] == MINUS && IsNatText(t[1..]) && t[1] != ZERO)
  }

  function IntOf(t: JsStr): int
    requires IsIntText(t)
  {
    if t[0] == MINUS then 0 - NatOf(t[1..]) else NatOf(t)
  }

  lemma IntOfDecimal(n: int)
    ensures IsIntText(Decimal(n)) && IntOf(Decimal(n)) == n
  {
    DigitsText(if n < 0 then -n else n);
    NatOfDigits(if n < 0 then -n else n);
    if n < 0 {
      assert Decimal(n)[1..] == Digits(-n);
    }
  }

  lemma {:induction false} DigitsText(n: nat)
    ensures IsNatText(Digits(n))
  {
  }

  // ----- number tokens -----

  predicate IsNumUnit(u: Unit) {
    IsDigit(u) || u == MINUS || u == PLUS || u == DOT || u == UPPER_E || u == LOWER_E
  }

  predicate AllNumUnits(s: JsStr) {
    forall i :: 0 <= i < |s| ==> IsNumUnit(s[i])
  }

  /** Text of a number that is not written as an integer, for example 0.5 or 1e+21. */
  predicate IsLitText(t: JsStr) {
    |t| >= 1 && AllNumUnits(t) && (IsDigit(t[0]) || t[0] == MINUS) && !IsIntText(t)
  }

  /** Some number texts, sorted out. */
  lemma NumberTexts()
    ensures IsIntText([49, 50]) && !IsIntText([48, 49]) && !IsIntText([45, 48]) && !IsIntText([49, 58])
    ensures IsLitText([52, 48, 46, 55]) && IsLitText([45, 48, 46, 53]) && IsLitText([49, 101, 43, 50, 49])
    ensures !IsLitText([49, 50]) && !IsLitText([46, 53]) && !IsLitText([49, 58])
  {
    assert [52, 48, 46, 55][2] == 46 && [45, 48, 46, 53][2] == 46;
    assert !IsDigit([49, 101, 43, 50, 49][1]) && !IsDigit([49, 58][1]) && !IsNumUnit([49, 58][1]);
    assert [45, 48][1..] == [48];
  }

  function NumSpan(s: JsStr): (n: nat)
    ensures n <= |s| && AllNumUnits(s[..n])
  {
    if s == [] || !IsNumUnit(s[0]) then 0
    else
      var n := 1 + NumSpan(s[1..]);
      assert s[..n] == [s[0]] + s[1..][..n - 1];
      n
  }

  /** What may follow a number token. */
  predicate Stops(k: JsStr) {
    k == [] || !IsNumUnit(k[0])
  }

  lemma {:induction false} NumSpanToken(t: JsStr, k: JsStr)
    requires AllNumUnits(t) && Stops(k)
    ensures NumSpan(t + k) == |t|
  {
    if t == [] {
      assert t + k == k;
    } else {
      assert (t + k)[1..] == t[1..] + k;
      NumSpanToken(t[1..], k);
    }
  }
}
