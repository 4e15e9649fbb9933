/// The JavaScript value semantics the spreadsheet core relies on: the dynamic
/// cell value, truthiness, the `??` operator, `typeof v === 'number'`,
/// `Number.prototype.toString` on integral numbers and `String.prototype.trim`.
module JsValues {

  /** A cell value (`any` in the source), narrowed to what the core stores:
      an integral number, a string, `null` or `undefined`. */
  datatype CellValue = Num(n: int) | Str(s: string) | Null | Undef

  /** JavaScript truthiness: `0`, `""`, `null` and `undefined` are falsy. */
  predicate Truthy(v: CellValue) {
    match v
    case Num(n) => n != 0
    case Str(s) => s != ""
    case Null => false
    case Undef => false
  }

  predicate IsNullish(v: CellValue) {
    v.Null? || v.Undef?
  }

  /** `v ?? fallback` */
  function Coalesce(v: CellValue, fallback: CellValue): CellValue {
    if IsNullish(v) then fallback else v
  }

  // ---------------------------------------------------------------------------
  // Decimal rendering of integers (what `toString` and template literals give
  // for an integral number)
  // ---------------------------------------------------------------------------

  predicate IsDigit(c: char) {
    '0' <= c <= '9'
  }

  function DigitChar(d: nat): (c: char)
    requires d < 10
    ensures IsDigit(c) && c as int - '0' as int == d
  {
    ('0' as int + d) as char
  }

  /** The decimal digits of `n`, most significant first, without leading zeros. */
  function NatToString(n: nat): string
    decreases n
  {
    if n < 10 then [DigitChar(n)] else NatToString(n / 10) + [DigitChar(n % 10)]
  }

  /** A rendering is a non-empty string of digits, one digit long exactly for
      numbers below ten. */
  lemma {:induction false} NatToStringFacts(n: nat)
    ensures var r := NatToString(n);
      && 1 <= |r| && (|r| == 1 <==> n < 10)
      && forall i :: 0 <= i < |r| ==> IsDigit(r[i])
    decreases n
  {
    if 10 <= n {
      NatToStringFacts(n / 10);
    }
  }

  function NumberToString(n: int): string {
    if n < 0 then "-" + NatToString(-n) else NatToString(n)
  }

  /** Distinct naturals render differently. */
  lemma {:induction false} NatToStringInjective(a: nat, b: nat)
    requires NatToString(a) == NatToString(b)
    ensures a == b
    decreases a
  {
    var sa, sb := NatToString(a), NatToString(b);
    NatToStringFacts(a);
    NatToStringFacts(b);
    if 10 <= a && 10 <= b {
      assert sa[|sa| - 1] == DigitChar(a % 10);
      assert sb[|sb| - 1] == DigitChar(b % 10);
      assert a % 10 == b % 10;
      assert sa[..|sa| - 1] == NatToString(a / 10);
      assert sb[..|sb| - 1] == NatToString(b / 10);
      NatToStringInjective(a / 10, b / 10);
    } else if a < 10 && b < 10 {
      assert sa[0] == DigitChar(a) && sb[0] == DigitChar(b);
    }
  }

  /** Distinct integers render differently: the number-to-string step of the
      comparison never merges two different numbers. */
  lemma NumberToStringInjective(a: int, b: int)
    requires NumberToString(a) == NumberToString(b)
    ensures a == b
  {
    NumberToStringSign(a);
    NumberToStringSign(b);
    var sa, sb := NumberToString(a), NumberToString(b);
    if a < 0 {
      assert sa[1..] == NatToString(-a) && sb[1..] == NatToString(-b);
      NatToStringInjective(-a, -b);
    } else {
      NatToStringInjective(a, b);
    }
  }

  /** A rendering starts with '-' exactly when the number is negative. */
  lemma NumberToStringSign(n: int)
    ensures NumberToString(n) != [] && (NumberToString(n)[0] == '-' <==> n < 0)
  {
    NatToStringFacts(if n < 0 then -n else n);
    if 0 <= n {
      assert IsDigit(NatToString(n)[0]);
    }
  }

  // ---------------------------------------------------------------------------
  // String.prototype.trim
  // ---------------------------------------------------------------------------

  /** The characters `trim` removes: the WhiteSpace and LineTerminator code
      points of ECMA-262 (section 12.2 and 12.3 of the 2023 edition). */
  predicate IsJsWhitespace(c: char) {
    || c == '\t' || c == '\n' || c == '\U{000B}' || c == '\U{000C}' || c == '\r'
    || c == ' ' || c == '\U{00A0}' || c == '\U{1680}'
    || ('\U{2000}' <= c <= '\U{200A}')
    || c == '\U{2028}' || c == '\U{2029}' || c == '\U{202F}' || c == '\U{205F}'
    || c == '\U{3000}' || c == '\U{FEFF}'
  }

  predicate IsBlank(s: string) {
    forall i :: 0 <= i < |s| ==> IsJsWhitespace(s[i])
  }

  function TrimStart(s: string): string {
    if s != [] && IsJsWhitespace(s[0]) then TrimStart(s[1..]) else s
  }

  function TrimEnd(s: string): string {
    if s != [] && IsJsWhitespace(s[|s| - 1]) then TrimEnd(s[..|s| - 1]) else s
  }

  /** `TrimStart` drops a blank prefix and stops at the first non-whitespace. */
  lemma {:induction false} TrimStartFacts(s: string)
    ensures var r := TrimStart(s);
      && |r| <= |s| && r == s[|s| - |r|..]
      && (r != [] ==> !IsJsWhitespace(r[0]))
      && IsBlank(s[..|s| - |r|])
  {
    if s != [] && IsJsWhitespace(s[0]) {
      TrimStartFacts(s[1..]);
      var r := TrimStart(s);
      assert s[..|s| - |r|] == [s[0]] + s[1..][..|s| - 1 - |r|];
    }
  }

  /** `TrimEnd` drops a blank suffix and stops at the last non-whitespace. */
  lemma {:induction false} TrimEndFacts(s: string)
    ensures var r := TrimEnd(s);
      && |r| <= |s| && r == s[..|r|]
      && (r != [] ==> !IsJsWhitespace(r[|r| - 1]))
      && IsBlank(s[|r|..])
  {
    if s != [] && IsJsWhitespace(s[|s| - 1]) {
      TrimEndFacts(s[..|s| - 1]);
      var r := TrimEnd(s);
      assert s[|r|..] == s[..|s| - 1][|r|..] + [s[|s| - 1]];
    }
  }

  function Trim(s: string): string {
    TrimEnd(TrimStart(s))
  }

  /** `trim` removes exactly the outer whitespace: the result is a contiguous
      part of the input with whitespace only around it and none at its ends,
      and it is empty exactly when the input is blank. */
  lemma TrimSpec(s: string)
    ensures var r := Trim(s);
      && (exists k :: 0 <= k <= |s| - |r| && s[k..k + |r|] == r && IsBlank(s[..k]) && IsBlank(s[k + |r|..]))
      && (r != [] ==> !IsJsWhitespace(r[0]) && !IsJsWhitespace(r[|r| - 1]))
      && (r == [] <==> IsBlank(s))
  {
    var t := TrimStart(s);
    var r := TrimEnd(t);
    TrimStartFacts(s);
    TrimEndFacts(t);
    var k := |s| - |t|;
    assert s[k..k + |r|] == r;
    assert s[k + |r|..] == t[|r|..];
    if r == [] {
      assert s == s[..k] + t;
    }
  }

  /** Trimming twice is trimming once. */
  lemma TrimIdempotent(s: string)
    ensures Trim(Trim(s)) == Trim(s)
  {
    var r := Trim(s);
    TrimSpec(s);
    TrimStartFacts(s);
    TrimEndFacts(TrimStart(s));
    assert TrimStart(r) == r;
    assert TrimEnd(r) == r;
  }

  /** Whitespace around a string is removed by `trim`. */
  lemma {:induction false} TrimPadded(pre: string, s: string, post: string)
    requires IsBlank(pre) && IsBlank(post)
    requires s != [] && !IsJsWhitespace(s[0]) && !IsJsWhitespace(s[|s| - 1])
    ensures Trim(pre + s + post) == s
  {
    assert pre + s + post == pre + (s + post);
    assert (s + post)[0] == s[0];
    TrimStartPadded(pre, s + post);
    TrimEndPadded(s, post);
  }

  lemma {:induction false} TrimStartPadded(pre: string, s: string)
    requires IsBlank(pre)
    requires s != [] && !IsJsWhitespace(s[0])
    ensures TrimStart(pre + s) == s
    decreases |pre|
  {
    if pre != [] {
      assert (pre + s)[1..] == pre[1..] + s;
      TrimStartPadded(pre[1..], s);
    }
  }

  lemma {:induction false} TrimEndPadded(s: string, post: string)
    requires IsBlank(post)
    requires s != [] && !IsJsWhitespace(s[|s| - 1])
    ensures TrimEnd(s + post) == s
    decreases |post|
  {
    if post != [] {
      assert (s + post)[..|s + post| - 1] == s + post[..|post| - 1];
      TrimEndPadded(s, post[..|post| - 1]);
    }
  }
}
