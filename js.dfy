/**
 * The few pieces of JavaScript value semantics the planner's handlers rely
 * on: optional values (`undefined`/`null` versus present), and `Number(s)`
 * applied to the pieces of a time label.
 */
module Js {

  /** A value that may be absent (`undefined` or `null` in the source). */
  datatype Option<T> = None | Some(value: T)

  /**
   * The result of `Number(s)`. Only the outcomes this model distinguishes:
   * a non-negative whole number, or `NaN`.
   */
  datatype Num = NaN | Int(value: int)

  predicate IsDigit(c: char) { '0' <= c <= '9' }

  predicate AllDigits(s: string) { forall i :: 0 <= i < |s| ==> IsDigit(s[i]) }

  function DigitValue(c: char): (d: nat)
    requires IsDigit(c)
    ensures d < 10
  {
    c as int - '0' as int
  }

  function DigitChar(d: nat): (c: char)
    requires d < 10
    ensures IsDigit(c) && DigitValue(c) == d
  {
    ('0' as int + d) as char
  }

  /** The value of a string of decimal digits, most significant first. */
  function DigitsValue(s: string): nat
    requires AllDigits(s)
  {
    if s == [] then 0 else 10 * DigitsValue(s[..|s| - 1]) + DigitValue(s[|s| - 1])
  }

  /**
   * `Number(s)` on the strings a time label is cut into: the empty string is
   * 0, a string of decimal digits is its value (leading zeros allowed), and
   * everything else is NaN.
   */
  function ToNumber(s: string): (r: Num)
    ensures r.Int? <==> AllDigits(s)
    ensures s == "" ==> r == Int(0)
    ensures r.Int? ==> r.value >= 0
  {
    if AllDigits(s) then Int(DigitsValue(s)) else NaN
  }

  /** JavaScript truthiness of a number: NaN and 0 are falsy. */
  predicate Truthy(n: Num) { n.Int? && n.value != 0 }

  /** `x || 0` for an optional number: absent, NaN and 0 all give 0. */
  function OrZero(x: Option<Num>): (r: int)
    ensures x.Some? && Truthy(x.value) ==> r == x.value.value
    ensures !(x.Some? && Truthy(x.value)) ==> r == 0
  {
    match x
    case Some(Int(v)) => v
    case _ => 0
  }

  /** The decimal rendering of a natural number, without leading zeros. */
  function ShowNat(n: nat): (s: string)
    ensures |s| >= 1 && AllDigits(s)
    ensures |s| > 1 ==> s[0] != '0'
  {
    if n < 10 then [DigitChar(n)] else ShowNat(n / 10) + [DigitChar(n % 10)]
  }

  /** `Number` reads back every rendered natural number. */
  lemma {:induction false} ToNumberShowNat(n: nat)
    ensures ToNumber(ShowNat(n)) == Int(n)
  {
    var s := ShowNat(n);
    if n < 10 {
      assert s[..|s| - 1] == [];
      assert DigitsValue(s) == 10 * DigitsValue([]) + DigitValue(s[0]);
    } else {
      assert s[..|s| - 1] == ShowNat(n / 10);
      ToNumberShowNat(n / 10);
    }
  }

  /** Leading zeros do not change the value `Number` reads. */
  lemma {:induction false} LeadingZero(s: string)
    requires AllDigits(s)
    ensures ToNumber("0" + s) == ToNumber(s)
  {
    if s != [] {
      var t := "0" + s;
      assert t[..|t| - 1] == "0" + s[..|s| - 1];
      LeadingZero(s[..|s| - 1]);
    } else {
      var t := "0";
      assert t[..|t| - 1] == [];
    }
  }
}
