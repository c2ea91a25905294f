/**
  * The two numeric readings of a path segment that the codec relies on:
  * array-index printing (`${index}`), array-index recognition (a property
  * name is an array index when it is the canonical decimal form of an
  * integer below 2^32 - 1), and `isNaN(Number(s))` for a string `s`, which
  * follows the StringToNumber grammar of section 7.1.4.1 of ECMA-262.
  */
module JsNumbers {

  predicate IsDigit(c: char) {
    '0' <= c <= '9'
  }

  predicate AllDigits(s: string) {
    forall i :: 0 <= i < |s| ==> IsDigit(s[i])
  }

  function DigitChar(d: nat): char
    requires d < 10
  {
    ['0', '1', '2', '3', '4', '5', '6', '7', '8', '9'][d]
  }

  function DigitValue(c: char): nat
    requires IsDigit(c)
  {
    (c as int - '0' as int) as nat
  }

  /** The integer a string of decimal digits denotes. */
  function DigitsValue(s: string): nat
    requires AllDigits(s)
  {
    if s == [] then 0 else DigitsValue(s[..|s| - 1]) * 10 + DigitValue(s[|s| - 1])
  }

  /** `${n}` for a non-negative integer: its shortest decimal digits. */
  function Itos(n: nat): (s: string)
    ensures |s| > 0 && AllDigits(s)
    ensures DigitsValue(s) == n
    ensures s[0] == '0' ==> s == "0"
    decreases n
  {
    if n < 10 then [DigitChar(n)]
    else
      var init := Itos(n / 10);
      var s := init + [DigitChar(n % 10)];
      assert s[..|s| - 1] == init;
      s
  }

  /** JavaScript arrays hold at most 2^32 - 1 elements, so indices stay below that. */
  const MaxArrayLength: nat := 0xFFFF_FFFF

  /** A property name that addresses an array element rather than a named property. */
  predicate IsArrayIndex(s: string) {
    |s| > 0 && AllDigits(s) && (s[0] == '0' ==> s == "0") && DigitsValue(s) < MaxArrayLength
  }

  lemma ItosIsArrayIndex(n: nat)
    requires n < MaxArrayLength
    ensures IsArrayIndex(Itos(n)) && DigitsValue(Itos(n)) == n
  {
  }

  /** Two array indices that denote the same integer are the same string. */
  lemma {:induction false} ArrayIndexCanonical(s: string)
    requires IsArrayIndex(s)
    ensures Itos(DigitsValue(s)) == s
  {
    CanonicalDigits(s);
  }

  lemma {:induction false} CanonicalDigits(s: string)
    requires |s| > 0 && AllDigits(s) && (s[0] == '0' ==> s == "0")
    ensures Itos(DigitsValue(s)) == s
    decreases |s|
  {
    var n := DigitsValue(s);
    if |s| == 1 {
      assert s[..|s| - 1] == [];
      assert DigitsValue(s[..|s| - 1]) == 0;
      assert n == DigitValue(s[0]);
      assert [DigitChar(n)] == s;
    } else {
      var init := s[..|s| - 1];
      assert init[0] == s[0];
      CanonicalDigits(init);
      assert DigitsValue(init) >= 1;
      assert n / 10 == DigitsValue(init) && n % 10 == DigitValue(s[|s| - 1]);
      assert DigitChar(n % 10) == s[|s| - 1];
      assert init + [s[|s| - 1]] == s;
    }
  }

  // ---------------------------------------------------------------------------
  // isNaN(Number(s)): the StringToNumber grammar.

  /** WhiteSpace and LineTerminator code points, which `Number` trims from both ends. */
  predicate IsStrWhiteSpaceChar(c: char) {
    c == '\U{0009}' || c == '\U{000B}' || c == '\U{000C}' || c == '\U{FEFF}'
    || c == '\U{0020}' || c == '\U{00A0}' || c == '\U{1680}'
    || ('\U{2000}' <= c <= '\U{200A}') || c == '\U{202F}' || c == '\U{205F}' || c == '\U{3000}'
    || c == '\U{000A}' || c == '\U{000D}' || c == '\U{2028}' || c == '\U{2029}'
  }

  /** The first index at or after `i` that does not hold white space. */
  function SkipWhite(s: string, i: nat): (j: nat)
    requires i <= |s|
    ensures i <= j <= |s|
    ensures forall k :: i <= k < j ==> IsStrWhiteSpaceChar(s[k])
    ensures j < |s| ==> !IsStrWhiteSpaceChar(s[j])
    decreases |s| - i
  {
    if i < |s| && IsStrWhiteSpaceChar(s[i]) then SkipWhite(s, i + 1) else i
  }

  /** The end of `s[lo..j]` once white space is dropped from its right-hand end. */
  function SkipWhiteBack(s: string, lo: nat, j: nat): (k: nat)
    requires lo <= j <= |s|
    ensures lo <= k <= j
    ensures forall m :: k <= m < j ==> IsStrWhiteSpaceChar(s[m])
    ensures k > lo ==> !IsStrWhiteSpaceChar(s[k - 1])
    decreases j
  {
    if j > lo && IsStrWhiteSpaceChar(s[j - 1]) then SkipWhiteBack(s, lo, j - 1) else j
  }

  /** `s` without white space at either end. */
  function Trim(s: string): (t: string)
    ensures t == [] || (!IsStrWhiteSpaceChar(t[0]) && !IsStrWhiteSpaceChar(t[|t| - 1]))
  {
    var a := SkipWhite(s, 0);
    s[a..SkipWhiteBack(s, a, |s|)]
  }

  /** The first index at or after `i` that does not hold a decimal digit. */
  function DigitRun(s: string, i: nat): (j: nat)
    requires i <= |s|
    ensures i <= j <= |s|
    ensures forall k :: i <= k < j ==> IsDigit(s[k])
    ensures j < |s| ==> !IsDigit(s[j])
    decreases |s| - i
  {
    if i < |s| && IsDigit(s[i]) then DigitRun(s, i + 1) else i
  }

  predicate IsSign(c: char) {
    c == '+' || c == '-'
  }

  /** SignedInteger: the digits of an exponent, with an optional sign. */
  predicate SignedInteger(t: string, j: nat)
    requires j <= |t|
  {
    var d := if j < |t| && IsSign(t[j]) then j + 1 else j;
    d < |t| && DigitRun(t, d) == |t|
  }

  /** ExponentPart, optional: nothing left at `j`, or `e`/`E` and a signed integer. */
  predicate OptionalExponent(t: string, j: nat)
    requires j <= |t|
  {
    j == |t| || ((t[j] == 'e' || t[j] == 'E') && SignedInteger(t, j + 1))
  }

  /**
    * StrUnsignedDecimalLiteral: `Infinity`, or digits with an optional
    * fraction and exponent, where at least one digit appears before or
    * after the point.
    */
  predicate UnsignedDecimal(t: string, start: nat)
    requires start <= |t|
  {
    t[start..] == "Infinity" ||
    var i := DigitRun(t, start);
    if i < |t| && t[i] == '.' then
      var j := DigitRun(t, i + 1);
      (i > start || j > i + 1) && OptionalExponent(t, j)
    else
      i > start && OptionalExponent(t, i)
  }

  predicate IsHexDigit(c: char) {
    IsDigit(c) || 'a' <= c <= 'f' || 'A' <= c <= 'F'
  }

  /** NonDecimalIntegerLiteral: `0x`, `0o` or `0b` and at least one digit of that base; no sign. */
  predicate NonDecimalInteger(t: string) {
    |t| > 2 && t[0] == '0' &&
    (((t[1] == 'x' || t[1] == 'X') && forall k :: 2 <= k < |t| ==> IsHexDigit(t[k]))
     || ((t[1] == 'o' || t[1] == 'O') && forall k :: 2 <= k < |t| ==> '0' <= t[k] <= '7')
     || ((t[1] == 'b' || t[1] == 'B') && forall k :: 2 <= k < |t| ==> '0' <= t[k] <= '1'))
  }

  /** StrNumericLiteral: a decimal literal with an optional sign, or an unsigned non-decimal one. */
  predicate StrNumericLiteral(t: string) {
    UnsignedDecimal(t, 0)
    || (|t| > 0 && IsSign(t[0]) && UnsignedDecimal(t, 1))
    || NonDecimalInteger(t)
  }

  /**
    * `isNaN(Number(s))`: after trimming white space, `s` is neither empty
    * (which reads as 0) nor a numeric literal.
    */
  predicate IsNaNNumber(s: string) {
    var t := Trim(s);
    t != [] && !StrNumericLiteral(t)
  }

  /** Every array index reads as a number, so it never makes the codec create an object. */
  lemma {:induction false} DigitsAreNumbers(s: string)
    requires |s| > 0 && AllDigits(s)
    ensures !IsNaNNumber(s)
  {
    assert !IsStrWhiteSpaceChar(s[0]);
    assert SkipWhite(s, 0) == 0;
    assert !IsStrWhiteSpaceChar(s[|s| - 1]);
    assert SkipWhiteBack(s, 0, |s|) == |s|;
    assert Trim(s) == s;
    assert s[0..] != "Infinity" by {
      assert !IsDigit("Infinity"[0]);
    }
    DigitRunAll(s, 0);
  }

  lemma {:induction false} DigitRunAll(s: string, i: nat)
    requires i <= |s| && AllDigits(s)
    ensures DigitRun(s, i) == |s|
    decreases |s| - i
  {
    if i < |s| {
      DigitRunAll(s, i + 1);
    }
  }

  /**
    * A name starting with a Latin letter other than `I` (which could begin
    * `Infinity`) is not a number.
    */
  lemma LetterNameIsNaN(s: string)
    requires |s| > 0 && ('a' <= s[0] <= 'z' || ('A' <= s[0] <= 'Z' && s[0] != 'I'))
    ensures IsNaNNumber(s)
  {
    assert SkipWhite(s, 0) == 0;
    var t := Trim(s);
    assert |t| > 0 && t[0] == s[0];
    assert t[0..] != "Infinity";
    assert DigitRun(t, 0) == 0;
  }

  /** `Number("")` is 0, not NaN: an empty segment counts as numeric. */
  lemma EmptyIsNumber()
    ensures !IsNaNNumber("")
  {
  }
}
