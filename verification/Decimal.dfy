/** Decimal numbers, as strconv prints and reads them. */
module Decimal {
  import opened Text

  function Digit(n: nat): char
    requires n < 10
  {
    ('0' as int + n) as char
  }

  /** strconv.Itoa of a number that is not negative. */
  function Itoa(n: nat): string {
    if n < 10 then [Digit(n)] else Itoa(n / 10) + [Digit(n % 10)]
  }

  /** strconv.Itoa. */
  function ItoaInt(n: int): string {
    if n < 0 then "-" + Itoa(-n) else Itoa(n)
  }

  predicate IsDigits(s: string) {
    s != "" && forall i | 0 <= i < |s| :: '0' <= s[i] <= '9'
  }

  function Value(s: string): nat
    requires forall i | 0 <= i < |s| :: '0' <= s[i] <= '9'
  {
    if s == "" then 0 else 10 * Value(s[..|s| - 1]) + (s[|s| - 1] as int - '0' as int)
  }

  /** Printing and reading back gives the number. */
  lemma {:induction false} ItoaValue(n: nat)
    ensures IsDigits(Itoa(n)) && Value(Itoa(n)) == n
  {
    if n >= 10 {
      ItoaValue(n / 10);
      assert Itoa(n)[..|Itoa(n)| - 1] == Itoa(n / 10);
    }
  }

  lemma ItoaInjective(a: nat, b: nat)
    requires Itoa(a) == Itoa(b)
    ensures a == b
  {
    ItoaValue(a);
    ItoaValue(b);
  }

  const INT64_LIMIT: nat := 0x8000_0000_0000_0000

  /** strconv.Atoi: an optional sign, digits, and a 64-bit value; None is an error. */
  function Atoi(s: string): Option<int> {
    if s == "" then None
    else
      var negative := s[0] == '-';
      var digits := if s[0] == '-' || s[0] == '+' then s[1..] else s;
      if !IsDigits(digits) then None
      else
        var v: int := Value(digits);
        if negative then if v <= INT64_LIMIT then Some(-v) else None
        else if v < INT64_LIMIT then Some(v)
        else None
  }

  lemma AtoiItoa(n: nat)
    requires n < INT64_LIMIT
    ensures Atoi(Itoa(n)) == Some(n)
  {
    ItoaValue(n);
  }

  lemma AtoiDigits(s: string)
    requires IsDigits(s)
    ensures Atoi(s) == if Value(s) < INT64_LIMIT then Some(Value(s)) else None
  {
    assert '0' <= s[0] <= '9';
  }

  /** Printed numbers have no leading zero. */
  lemma {:induction false} NoLeadingZero(n: nat, k: nat)
    requires 0 < n && 0 < k <= |Itoa(n)|
    ensures IsDigits(Itoa(n)[..k]) && Value(Itoa(n)[..k]) > 0
  {
    ItoaValue(n);
    if k == |Itoa(n)| {
      assert Itoa(n)[..k] == Itoa(n);
    } else {
      NoLeadingZero(n / 10, k);
      assert Itoa(n)[..k] == Itoa(n / 10)[..k];
    }
  }

  /** Digits in front of a number make it larger. */
  lemma {:induction false} DigitsInFront(a: string, b: string)
    requires IsDigits(a) && Value(a) > 0 && forall i | 0 <= i < |b| :: '0' <= b[i] <= '9'
    ensures IsDigits(a + b) && Value(a + b) > Value(b)
  {
    if b == "" {
      assert a + b == a;
    } else {
      DigitsInFront(a, b[..|b| - 1]);
      assert (a + b)[..|a + b| - 1] == a + b[..|b| - 1];
    }
  }
}
