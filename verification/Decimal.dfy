/** Decimal text of natural numbers, as strconv writes and reads it. */
module Decimal {
  import opened Options

  predicate IsDigit(c: char) {
    '0' <= c <= '9'
  }

  predicate AllDigits(s: string) {
    forall i :: 0 <= i < |s| ==> IsDigit(s[i])
  }

  function Digit(d: nat): (c: char)
    requires d < 10
    ensures IsDigit(c) && c as int - '0' as int == d
  {
    ('0' as int + d) as char
  }

  /** The base-10 digits of `n`, without leading zeros. */
  function Text(n: nat): (s: string)
    ensures |s| > 0
  {
    if n < 10 then [Digit(n)] else Text(n / 10) + [Digit(n % 10)]
  }

  /** The value of a digit string read from left to right. */
  function ValueOf(s: string): (n: nat)
    requires AllDigits(s)
  {
    if s == [] then 0 else ValueOf(s[..|s|-1]) * 10 + (s[|s|-1] as int - '0' as int)
  }

  lemma {:induction false} TextRoundTrip(n: nat)
    ensures AllDigits(Text(n)) && ValueOf(Text(n)) == n
    ensures |Text(n)| > 1 ==> Text(n)[0] != '0'
  {
    if n < 10 {
      assert Text(n)[..0] == [];
    } else {
      TextRoundTrip(n / 10);
      assert Text(n)[..|Text(n)| - 1] == Text(n / 10);
    }
  }

  lemma TextInjective(m: nat, n: nat)
    requires Text(m) == Text(n)
    ensures m == n
  {
    TextRoundTrip(m);
    TextRoundTrip(n);
  }

  const MAX_INT64 := 0x7FFF_FFFF_FFFF_FFFF

  /** A Go int on a 64-bit platform. */
  type Int64 = x: int | -MAX_INT64 - 1 <= x <= MAX_INT64

  /** strconv.Atoi: an optional sign, at least one digit, and a 64-bit range check. */
  function Atoi(s: string): Option<Int64> {
    var signed := |s| > 0 && (s[0] == '-' || s[0] == '+');
    var digits := if signed then s[1..] else s;
    if digits == [] || !AllDigits(digits) then None
    else
      var magnitude: int := ValueOf(digits);
      if signed && s[0] == '-' then
        if magnitude <= MAX_INT64 + 1 then Some(-magnitude) else None
      else
        if magnitude <= MAX_INT64 then Some(magnitude) else None
  }

  /** A number's text reads back exactly when the number fits. */
  lemma AtoiText(n: nat)
    ensures Atoi(Text(n)) == if n <= MAX_INT64 then Some(n) else None
  {
    TextRoundTrip(n);
    assert IsDigit(Text(n)[0]);
  }

  /** The same with a sign, which allows one negative number more. */
  lemma AtoiSigned(n: nat)
    ensures Atoi("+" + Text(n)) == if n <= MAX_INT64 then Some(n) else None
    ensures Atoi("-" + Text(n)) == if n <= MAX_INT64 + 1 then Some(0 - n) else None
  {
    TextRoundTrip(n);
    hide Text, ValueOf;
    assert ("+" + Text(n))[1..] == Text(n) && ("-" + Text(n))[1..] == Text(n);
  }

  /** Nothing but digits behind at most one sign is read. */
  lemma AtoiRefuses(s: string, i: nat)
    requires i < |s| && !IsDigit(s[i]) && (i > 0 || (s[0] != '+' && s[0] != '-'))
    ensures Atoi(s) == None
  {
    if s[0] == '+' || s[0] == '-' {
      assert !IsDigit(s[1..][i - 1]) && !AllDigits(s[1..]);
    } else {
      assert !AllDigits(s);
    }
  }
}
