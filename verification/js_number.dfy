/**
 * Integers as the script sees them: decimal rendering (`String(n)`, template
 * literals) and `parseInt(s, 10)`, whose result may be `NaN`.
 */
module JsNumber {

  /** The result of `parseInt`: `NaN` or an integer. */
  datatype JsInt = NaN | Finite(v: int)

  /** JavaScript truthiness of a number: `NaN`, `0` and `-0` are falsy. */
  predicate TruthyInt(x: JsInt) {
    x.Finite? && x.v != 0
  }

  /** Subtraction; `NaN` is contagious. */
  function Sub(a: JsInt, b: JsInt): (r: JsInt)
    ensures r.Finite? <==> a.Finite? && b.Finite?
    ensures r.Finite? ==> r.v + b.v == a.v
  {
    if a.Finite? && b.Finite? then Finite(a.v - b.v) else NaN
  }

  predicate IsDigit(c: char) {
    '0' <= c <= '9'
  }

  predicate AllDigits(s: string) {
    forall i :: 0 <= i < |s| ==> IsDigit(s[i])
  }

  function DigitChar(d: nat): (c: char)
    requires d < 10
    ensures IsDigit(c) && (c as int) - ('0' as int) == d
  {
    (('0' as int) + d) as char
  }

  function DigitValue(c: char): (d: nat)
    requires IsDigit(c)
    ensures d < 10
  {
    (c as int) - ('0' as int)
  }

  /** Shortest decimal rendering of a natural number, as `String(n)` produces it. */
  function NatToString(n: nat): (r: string)
    ensures 1 <= |r|
    ensures AllDigits(r)
    ensures |r| > 1 ==> r[0] != '0'
  {
    if n < 10 then [DigitChar(n)] else NatToString(n / 10) + [DigitChar(n % 10)]
  }

  /** Decimal rendering of an integer, with a leading `-` for negatives. */
  function IntToString(i: int): (r: string)
    ensures i < 0 <==> (|r| > 0 && r[0] == '-')
  {
    if i < 0 then "-" + NatToString(-i) else NatToString(i)
  }

  /** Value of a string of decimal digits (most significant first). */
  function DecimalValue(s: string): nat
    requires AllDigits(s)
  {
    if |s| == 0 then 0 else DecimalValue(s[..|s| - 1]) * 10 + DigitValue(s[|s| - 1])
  }

  /**
   * The characters `parseInt` skips before the number: the WhiteSpace and
   * LineTerminator productions of ECMAScript (sections 12.2 and 12.3 of ECMA-262).
   */
  predicate IsJsWhiteSpace(c: char) {
    || c == '\t' || c == '\n' || c == '\U{B}' || c == '\U{C}' || c == '\r' || c == ' '
    || c == '\U{A0}' || c == '\U{1680}' || ('\U{2000}' <= c <= '\U{200A}')
    || c == '\U{2028}' || c == '\U{2029}' || c == '\U{202F}' || c == '\U{205F}'
    || c == '\U{3000}' || c == '\U{FEFF}'
  }

  /** `s` with its leading white space removed. */
  function TrimStart(s: string): (r: string)
    ensures |r| <= |s| && r == s[|s| - |r|..]
    ensures |r| > 0 ==> !IsJsWhiteSpace(r[0])
    ensures forall i :: 0 <= i < |s| - |r| ==> IsJsWhiteSpace(s[i])
  {
    if |s| > 0 && IsJsWhiteSpace(s[0]) then TrimStart(s[1..]) else s
  }

  /** Number of leading decimal digits of `s`. */
  function DigitPrefixLength(s: string): (n: nat)
    ensures n <= |s|
    ensures AllDigits(s[..n])
    ensures n < |s| ==> !IsDigit(s[n])
  {
    if |s| > 0 && IsDigit(s[0]) then 1 + DigitPrefixLength(s[1..]) else 0
  }

  /** `s` after its leading white space and one optional sign. */
  function Unsigned(s: string): string {
    var t := TrimStart(s);
    if |t| > 0 && (t[0] == '-' || t[0] == '+') then t[1..] else t
  }

  /**
   * `parseInt(s, 10)`: white space, an optional sign, then the longest run of
   * digits. The result is `NaN` exactly when no digit follows the white space
   * and sign, and it is negative only after a `-`.
   */
  function ParseInt(s: string): (r: JsInt)
    ensures r.NaN? <==> |Unsigned(s)| == 0 || !IsDigit(Unsigned(s)[0])
    ensures r.Finite? && r.v < 0 ==> |TrimStart(s)| > 0 && TrimStart(s)[0] == '-'
  {
    var t := TrimStart(s);
    var u := Unsigned(s);
    var n := DigitPrefixLength(u);
    if n == 0 then NaN
    else if |t| > 0 && t[0] == '-' then Finite(-(DecimalValue(u[..n]) as int))
    else Finite(DecimalValue(u[..n]))
  }

  lemma {:induction false} DecimalValueOfNatToString(n: nat)
    ensures DecimalValue(NatToString(n)) == n
  {
    var r := NatToString(n);
    if n < 10 {
      assert r[..0] == [];
    } else {
      assert r[..|r| - 1] == NatToString(n / 10);
      DecimalValueOfNatToString(n / 10);
    }
  }

  /** Distinct numbers have distinct renderings. */
  lemma NatToStringDistinct(i: nat, n: nat)
    requires i != n
    ensures NatToString(i) != NatToString(n)
  {
    DecimalValueOfNatToString(i);
    DecimalValueOfNatToString(n);
  }

  lemma {:induction false} DigitPrefixOfDigits(d: string, rest: string)
    requires AllDigits(d)
    requires |rest| > 0 ==> !IsDigit(rest[0])
    ensures DigitPrefixLength(d + rest) == |d|
  {
    if |d| > 0 {
      assert (d + rest)[1..] == d[1..] + rest;
      DigitPrefixOfDigits(d[1..], rest);
    } else {
      assert d + rest == rest;
    }
  }

  /** A string that starts with a digit is read without trimming or sign. */
  lemma ParseIntFromDigit(s: string)
    requires |s| > 0 && IsDigit(s[0])
    ensures ParseInt(s) == Finite(DecimalValue(s[..DigitPrefixLength(s)]))
  {
    assert !IsJsWhiteSpace(s[0]);
    assert TrimStart(s) == s;
    assert Unsigned(s) == s;
  }

  /** Reading an unsigned rendering: the digits stop where `rest` begins. */
  lemma ParseIntOfDigits(n: nat, rest: string)
    requires |rest| > 0 ==> !IsDigit(rest[0])
    ensures ParseInt(NatToString(n) + rest) == Finite(n)
  {
    var d := NatToString(n);
    var s := d + rest;
    assert s[0] == d[0];
    ParseIntFromDigit(s);
    DigitPrefixOfDigits(d, rest);
    assert s[..|d|] == d;
    DecimalValueOfNatToString(n);
  }

  /**
   * `parseInt` reads back what `String` writes, and stops at the first
   * character that is not a digit.
   */
  lemma ParseIntOfIntToString(i: int, rest: string)
    requires |rest| > 0 ==> !IsDigit(rest[0])
    ensures ParseInt(IntToString(i) + rest) == Finite(i)
  {
    if i >= 0 {
      ParseIntOfDigits(i, rest);
    } else {
      var d := NatToString(-i);
      var s := IntToString(i) + rest;
      assert s == ['-'] + (d + rest);
      assert !IsJsWhiteSpace(s[0]);
      assert TrimStart(s) == s;
      assert Unsigned(s) == d + rest;
      DigitPrefixOfDigits(d, rest);
      assert (d + rest)[..|d|] == d;
      DecimalValueOfNatToString(-i);
    }
  }

  /** Leading white space never changes what `parseInt` reads. */
  lemma ParseIntSkipsWhiteSpace(c: char, s: string)
    requires IsJsWhiteSpace(c)
    ensures ParseInt([c] + s) == ParseInt(s)
  {
    assert ([c] + s)[1..] == s;
  }
}
