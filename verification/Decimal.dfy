// Unsigned decimal text: strconv.FormatUint/ParseUint and Python str/int on digits.

module Decimal {
  import opened Names

  predicate AllDigits(s: string) {
    s != "" && forall i :: 0 <= i < |s| ==> Digit(s[i])
  }

  // No leading zero except "0" itself.
  predicate Canonical(s: string) { AllDigits(s) && (s[0] == '0' ==> s == "0") }

  function DigitChar(d: int): (c: char)
    requires 0 <= d < 10
    ensures Digit(c) && c as int - '0' as int == d
  {
    ('0' as int + d) as char
  }

  function Format(n: nat): (s: string)
    ensures s != ""
  {
    if n < 10 then [DigitChar(n)] else Format(n / 10) + [DigitChar(n % 10)]
  }

  function Value(s: string): int {
    if s == "" then 0 else Value(s[..|s| - 1]) * 10 + (s[|s| - 1] as int - '0' as int)
  }

  function Power10(k: nat): nat { if k == 0 then 1 else 10 * Power10(k - 1) }

  lemma {:induction false} FormatIsCanonical(n: nat)
    ensures Canonical(Format(n)) && Value(Format(n)) == n
    ensures Format(n)[0] == '0' <==> n == 0
  {
    if n < 10 {
      assert Format(n)[..0] == "";
    } else {
      FormatIsCanonical(n / 10);
      var s := Format(n);
      assert s[..|s| - 1] == Format(n / 10);
      assert s[0] == Format(n / 10)[0];
    }
  }

  lemma {:induction false} PowerMonotone(a: nat, b: nat)
    requires a <= b
    ensures Power10(a) <= Power10(b)
    decreases b - a
  {
    if a < b { PowerMonotone(a, b - 1); }
  }

  lemma {:induction false} ValueBound(s: string)
    requires forall i :: 0 <= i < |s| ==> Digit(s[i])
    ensures 0 <= Value(s) < Power10(|s|)
  {
    if s != "" { ValueBound(s[..|s| - 1]); }
  }

  // Two canonical texts with one value are the same text.
  lemma {:induction false} CanonicalIsFormat(s: string)
    requires Canonical(s)
    ensures Value(s) >= 0 && Format(Value(s)) == s
  {
    ValueBound(s);
    var front, d := s[..|s| - 1], s[|s| - 1] as int - '0' as int;
    assert s == front + [s[|s| - 1]];
    if front == "" {
      assert Value(s) == d;
    } else {
      assert front[0] == s[0];
      CanonicalIsFormat(front);
      ValueBound(front);
      FormatIsCanonical(Value(front));
      assert Value(s) / 10 == Value(front) && Value(s) % 10 == d;
    }
  }

  lemma {:induction false} FormatLength(n: nat, k: nat)
    requires k >= 1 && n < Power10(k)
    ensures |Format(n)| <= k
  {
    if n >= 10 {
      assert k >= 2;
      FormatLength(n / 10, k - 1);
    }
  }

  lemma TwelveDigits()
    ensures Power10(12) == 1_000_000_000_000 && Power10(10) == 10_000_000_000
  {
    assert Power10(4) == 10_000;
    assert Power10(8) == 100_000_000;
    assert Power10(10) == 10_000_000_000;
  }
}
