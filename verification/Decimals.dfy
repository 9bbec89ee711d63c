/** Decimal texts of numbers. */
module Decimals {
  predicate Digit(c: char) {
    '0' <= c <= '9'
  }

  /** /^\d+$/ */
  predicate Numeric(s: string) {
    s != [] && forall i | 0 <= i < |s| :: Digit(s[i])
  }

  /** /^(0|[1-9]\d*)$/ */
  predicate Canonical(s: string) {
    Numeric(s) && (s == "0" || s[0] != '0')
  }

  function Value(s: string): nat
    requires forall i | 0 <= i < |s| :: Digit(s[i])
  {
    if s == [] then 0
    else
      assert Digit(s[|s| - 1]);
      10 * Value(s[..|s| - 1]) + (s[|s| - 1] as int - '0' as int)
  }

  /** The decimal text of a number. */
  function Decimal(n: nat): string {
    if n < 10 then ['0' + n as char] else Decimal(n / 10) + ['0' + (n % 10) as char]
  }

  lemma {:induction false} DecimalIs(n: nat)
    ensures Canonical(Decimal(n)) && Value(Decimal(n)) == n && (n > 0 ==> Decimal(n)[0] != '0')
  {
    if n >= 10 {
      DecimalIs(n / 10);
      var s := Decimal(n);
      assert s[..|s| - 1] == Decimal(n / 10);
      assert forall i | 0 <= i < |s| - 1 :: s[i] == Decimal(n / 10)[i];
    } else {
      assert Decimal(n)[..0] == [];
    }
  }

  /** Without leading zeros a number has one text. */
  lemma {:induction false} OneText(s: string, t: string)
    requires Canonical(s) && Canonical(t) && Value(s) == Value(t)
    ensures s == t
    decreases |s|
  {
    var a, b := s[..|s| - 1], t[..|t| - 1];
    assert s == a + [s[|s| - 1]] && t == b + [t[|t| - 1]];
    LastDigit(s, t);
    if |s| > 1 && |t| > 1 {
      OneText(a, b);
    } else if |s| > 1 {
      Positive(a);
    } else if |t| > 1 {
      Positive(b);
    }
  }

  lemma LastDigit(s: string, t: string)
    requires Numeric(s) && Numeric(t) && Value(s) == Value(t)
    ensures s[|s| - 1] == t[|t| - 1] && Value(s[..|s| - 1]) == Value(t[..|t| - 1])
  {}

  lemma {:induction false} Positive(s: string)
    requires Numeric(s) && s[0] != '0'
    ensures Value(s) > 0
    decreases |s|
  {
    if |s| > 1 {
      Positive(s[..|s| - 1]);
    }
  }
}
