/**
 Decimal text of an integer: what LogStream::formatInteger is to produce,
 independently of how `convert` computes it.
 */
module Decimal {
  function Digit(n: nat): char
    requires n < 10
  {
    '0' + n as char
  }

  /** The digits of a natural number, most significant first. */
  function Digits(n: nat): (s: string)
    ensures s != []
  {
    if n < 10 then [Digit(n)] else Digits(n / 10) + [Digit(n % 10)]
  }

  function Text(v: int): string {
    if v < 0 then "-" + Digits(-v) else Digits(v)
  }

  predicate IsDigit(c: char) { '0' <= c <= '9' }

  function Value(c: char): nat
    requires IsDigit(c)
  {
    (c - '0') as nat
  }

  predicate AllDigits(s: string) {
    s != [] && forall i :: 0 <= i < |s| ==> IsDigit(s[i])
  }

  function ParseNat(s: string): nat
    requires forall i :: 0 <= i < |s| ==> IsDigit(s[i])
  {
    if s == [] then 0 else 10 * ParseNat(s[..|s| - 1]) + Value(s[|s| - 1])
  }

  predicate Wellformed(s: string) {
    AllDigits(s) || (s != [] && s[0] == '-' && AllDigits(s[1..]))
  }

  function Parse(s: string): int
    requires Wellformed(s)
  {
    if s[0] == '-' then 0 - ParseNat(s[1..]) else ParseNat(s)
  }

  /** No superfluous zeros, no "-0". */
  predicate Canonical(s: string) {
    && Wellformed(s)
    && (s[0] == '0' ==> |s| == 1)
    && (s[0] == '-' ==> s[1] != '0')
  }

  lemma {:induction false} DigitsRoundTrip(n: nat)
    ensures AllDigits(Digits(n)) && ParseNat(Digits(n)) == n
    ensures Digits(n)[0] == '0' ==> n == 0
  {
    if 10 <= n {
      DigitsRoundTrip(n / 10);
      assert Digits(n)[..|Digits(n)| - 1] == Digits(n / 10);
    } else {
      assert [Digit(n)][..0] == [];
    }
  }

  /** Reading the text gives the value back, and the text is canonical. */
  lemma RoundTrip(v: int)
    ensures Canonical(Text(v)) && Parse(Text(v)) == v
  {
    DigitsRoundTrip(if v < 0 then -v else v);
    if v < 0 {
      assert Text(v)[1..] == Digits(-v);
    } else if Text(v)[0] == '0' {
      assert Text(v) == Digits(0);
    }
  }

  lemma DigitsPush(n: nat, c: char)
    requires 0 < n && IsDigit(c)
    ensures Digits(10 * n + Value(c)) == Digits(n) + [c]
  {
    var m := 10 * n + Value(c);
    assert m / 10 == n && m % 10 == Value(c);
  }

  lemma {:induction false} DigitsUnique(s: string)
    requires AllDigits(s) && (s[0] == '0' ==> |s| == 1)
    ensures s == Digits(ParseNat(s)) && (s[0] != '0' ==> 0 < ParseNat(s))
  {
    var front, last := s[..|s| - 1], s[|s| - 1];
    if |s| == 1 {
      assert ParseNat(front) == 0;
      assert s == [last] && Digit(Value(last)) == last;
    } else {
      DigitsUnique(front);
      DigitsPush(ParseNat(front), last);
      assert s == front + [last];
    }
  }

  /** It is the only canonical text of its value. */
  lemma OnlyText(s: string)
    requires Canonical(s)
    ensures s == Text(Parse(s))
  {
    if s[0] == '-' {
      DigitsUnique(s[1..]);
      assert s == "-" + s[1..];
    } else {
      DigitsUnique(s);
    }
  }

  function Pow10(k: nat): nat {
    if k == 0 then 1 else 10 * Pow10(k - 1)
  }

  lemma {:induction false} DigitCount(n: nat, k: nat)
    requires 0 < k && n < Pow10(k)
    ensures |Digits(n)| <= k
  {
    if 10 <= n {
      DigitCount(n / 10, k - 1);
    }
  }

  /** Every value of the supported types, from the least long long to the
      greatest unsigned long long, fits in 20 characters. */
  lemma FitsInTwenty(v: int)
    requires -0x8000_0000_0000_0000 <= v < 0x1_0000_0000_0000_0000
    ensures |Text(v)| <= 20
  {
    assert Pow10(4) == 10_000;
    assert Pow10(8) == 1_0000_0000;
    assert Pow10(12) == 1_0000_0000_0000;
    assert Pow10(16) == 1_0000_0000_0000_0000;
    assert Pow10(19) == 1000_0000_0000_0000_0000;
    assert Pow10(20) == 1_0000_0000_0000_0000_0000;
    if v < 0 {
      DigitCount(-v, 19);
    } else {
      DigitCount(v, 20);
    }
  }

  function Reversed(s: string): (r: string)
    ensures |r| == |s|
    ensures forall i :: 0 <= i < |s| ==> r[i] == s[|s| - 1 - i]
  {
    if s == [] then [] else Reversed(s[1..]) + [s[0]]
  }

  lemma ReversedPush(s: string, c: char)
    ensures Reversed(s + [c]) == [c] + Reversed(s)
  {}
}
