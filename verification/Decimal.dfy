/** Decimal numerals as template strings print them, and why identifiers built from them do not collide. */
module Decimal {

  function Digit(d: nat): char
    requires d < 10
  {
    ['0', '1', '2', '3', '4', '5', '6', '7', '8', '9'][d]
  }

  function Numeral(n: nat): (s: string)
    ensures s != ""
  {
    if n < 10 then [Digit(n)] else Numeral(n / 10) + [Digit(n % 10)]
  }

  lemma DigitInjective(a: nat, b: nat)
    requires a < 10 && b < 10 && Digit(a) == Digit(b)
    ensures a == b
  {
  }

  lemma DigitIsNotColon(d: nat)
    requires d < 10
    ensures Digit(d) != ':'
  {
  }

  lemma {:induction false} NumeralInjective(a: nat, b: nat)
    requires Numeral(a) == Numeral(b)
    ensures a == b
  {
    var s := Numeral(a);
    if a < 10 && b < 10 {
      DigitInjective(a, b);
    } else if a >= 10 && b >= 10 {
      assert s[|s| - 1] == Digit(a % 10) == Digit(b % 10);
      DigitInjective(a % 10, b % 10);
      assert Numeral(a / 10) == s[..|s| - 1] == Numeral(b / 10);
      NumeralInjective(a / 10, b / 10);
    }
  }

  lemma {:induction false} NumeralHasNoColon(n: nat)
    ensures ':' !in Numeral(n)
  {
    if n < 10 {
      DigitIsNotColon(n);
    } else {
      NumeralHasNoColon(n / 10);
      DigitIsNotColon(n % 10);
    }
  }

  lemma LastColon(left: string, u: string, right: string, v: string)
    requires left + ":" + u == right + ":" + v && |left| <= |right|
    requires forall i :: 0 <= i < |u| ==> u[i] != ':'
    ensures left == right && u == v
  {
    var s := left + ":" + u;
    assert s == right + ":" + v;
    assert s[|right|] == ':';
    assert forall k :: |left| < k < |s| ==> s[k] == u[k - |left| - 1];
    assert left == s[..|left|] && right == s[..|right|];
    assert u == s[|left| + 1..] && v == s[|right| + 1..];
  }

  /** Two numerals after a colon can be told apart whatever stands before them. */
  lemma {:induction false} SuffixedInjective(left: string, a: nat, right: string, b: nat)
    requires left + ":" + Numeral(a) == right + ":" + Numeral(b)
    ensures left == right && a == b
  {
    NumeralHasNoColon(a);
    NumeralHasNoColon(b);
    if |left| <= |right| {
      LastColon(left, Numeral(a), right, Numeral(b));
    } else {
      LastColon(right, Numeral(b), left, Numeral(a));
    }
    NumeralInjective(a, b);
  }
}
