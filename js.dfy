/**
 * The handful of JavaScript built-ins whose behaviour the booking engine
 * depends on: `parseInt`, `Number#toString`, `String#toLowerCase`,
 * `String#includes` and the truncating `%` operator.
 */
module Js {

  /** A JavaScript number as the engine produces it: an integer or NaN. */
  datatype Number = Finite(value: int) | NaN

  predicate IsDigit(c: char) {
    '0' <= c <= '9'
  }

  predicate AllDigits(s: string) {
    forall i :: 0 <= i < |s| ==> IsDigit(s[i])
  }

  function DigitValue(c: char): (d: nat)
    requires IsDigit(c)
    ensures d < 10
  {
    (c as int) - ('0' as int)
  }

  function DigitChar(d: nat): (c: char)
    requires d < 10
    ensures IsDigit(c) && DigitValue(c) == d
  {
    (('0' as int) + d) as char
  }

  /** Decimal digits of a natural number, most significant first, no leading zeros. */
  function NatToString(n: nat): (s: string)
    ensures |s| >= 1 && AllDigits(s)
  {
    if n < 10 then [DigitChar(n)] else NatToString(n / 10) + [DigitChar(n % 10)]
  }

  /** `String(n)` for an integer-valued number. */
  function IntToString(n: int): (s: string)
    ensures |s| >= 1
    ensures s[0] == '-' || IsDigit(s[0])
  {
    if n < 0 then "-" + NatToString(-n) else NatToString(n)
  }

  /** `x.toString()`. */
  function NumberToString(x: Number): (s: string)
    ensures |s| >= 1
  {
    match x
    case Finite(n) => IntToString(n)
    case NaN => "NaN"
  }

  /** Value of a string of decimal digits. */
  function DigitsValue(s: string): nat
    requires AllDigits(s)
  {
    if s == [] then 0 else DigitsValue(s[..|s| - 1]) * 10 + DigitValue(s[|s| - 1])
  }

  /** The longest prefix of `s` made of decimal digits. */
  function LeadingDigits(s: string): (p: string)
    ensures AllDigits(p) && p <= s
    ensures p == s || !IsDigit(s[|p|])
  {
    if s != [] && IsDigit(s[0]) then [s[0]] + LeadingDigits(s[1..]) else []
  }

  predicate IsSpace(c: char) {
    c == ' ' || c == '\t' || c == '\n' || c == '\r'
  }

  function TrimStart(s: string): string {
    if s != [] && IsSpace(s[0]) then TrimStart(s[1..]) else s
  }

  /**
   * `parseInt(s)` with radix 10: leading white space is skipped, an optional
   * sign is read, then the longest run of digits; no digit at all gives NaN.
   */
  function ParseInt(s: string): Number {
    var t := TrimStart(s);
    var signed := t != [] && (t[0] == '-' || t[0] == '+');
    var body := if signed then t[1..] else t;
    var ds := LeadingDigits(body);
    if ds == [] then NaN
    else if signed && t[0] == '-' then Finite(0 - DigitsValue(ds))
    else Finite(DigitsValue(ds))
  }

  lemma LeadingDigitsOfDigits(s: string)
    requires AllDigits(s)
    ensures LeadingDigits(s) == s
  {
    if s != [] {
      LeadingDigitsOfDigits(s[1..]);
    }
  }

  lemma {:induction false} DigitsValueOfNat(n: nat)
    ensures DigitsValue(NatToString(n)) == n
  {
    if n >= 10 {
      var s := NatToString(n);
      assert s[..|s| - 1] == NatToString(n / 10);
      DigitsValueOfNat(n / 10);
    }
  }

  lemma ParseIntOfDigits(m: nat)
    ensures ParseInt(NatToString(m)) == Finite(m)
  {
    var s := NatToString(m);
    assert TrimStart(s) == s;
    assert !(s[0] == '-' || s[0] == '+');
    LeadingDigitsOfDigits(s);
    DigitsValueOfNat(m);
  }

  lemma ParseIntOfNegative(m: nat)
    requires m > 0
    ensures ParseInt("-" + NatToString(m)) == Finite(0 - m)
  {
    var s := "-" + NatToString(m);
    assert TrimStart(s) == s;
    assert s[1..] == NatToString(m);
    LeadingDigitsOfDigits(NatToString(m));
    DigitsValueOfNat(m);
  }

  /** Reading back what `toString` wrote gives the number again, NaN included. */
  lemma ParseIntOfToString(x: Number)
    ensures ParseInt(NumberToString(x)) == x
  {
    match x
    case NaN =>
      assert LeadingDigits("NaN") == [];
    case Finite(n) =>
      if n < 0 {
        ParseIntOfNegative(-n);
      } else {
        ParseIntOfDigits(n);
      }
  }

  /** `a - b` on numbers: NaN absorbs. */
  function Minus(a: Number, b: int): (r: Number)
    ensures r.Finite? <==> a.Finite?
    ensures a.Finite? ==> r.value == a.value - b
  {
    match a
    case Finite(v) => Finite(v - b)
    case NaN => NaN
  }

  /** JavaScript's `%`: the remainder takes the sign of the dividend. */
  function Rem(a: int, b: int): (r: int)
    requires b != 0
    ensures a >= 0 && b > 0 ==> r == a % b
  {
    var m := (if a < 0 then -a else a) % (if b < 0 then -b else b);
    if a < 0 then -m else m
  }

  /** `String#toLowerCase` on the ASCII letters. */
  function ToLower(s: string): (r: string)
    ensures |r| == |s|
  {
    if s == [] then []
    else [if 'A' <= s[0] <= 'Z' then ((s[0] as int) + 32) as char else s[0]] + ToLower(s[1..])
  }

  predicate OccursAt(s: string, sub: string, i: int) {
    0 <= i <= |s| - |sub| && s[i..i + |sub|] == sub
  }

  /** `s.includes(sub)`. */
  predicate Includes(s: string, sub: string) {
    exists i :: 0 <= i <= |s| - |sub| && OccursAt(s, sub, i)
  }
}
