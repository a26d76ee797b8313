/** LogStream.cpp: formatting of integers into a fixed buffer. */
module LogStreams {
  import opened Decimal
  import opened FixBuffers
  import opened Strings

  const DIGITS: string := "9876543210123456789"
  const MAX_NUMBER_SIZE: nat := 32

  /** C++ integer division and remainder: truncated towards zero. */
  function Quotient(a: int): int { if a < 0 then -(-a / 10) else a / 10 }
  function Remainder(a: int): int { if a < 0 then -(-a % 10) else a % 10 }

  function Abs(a: int): nat { if a < 0 then -a else a }

  /** zero[lsd] is the digit of |lsd| for a remainder of either sign. */
  lemma MirroredTable(lsd: int)
    requires -9 <= lsd <= 9
    ensures DIGITS[9 + lsd] == Digit(Abs(lsd))
  {}

  lemma LeastDigit(i: int)
    ensures -9 <= Remainder(i) <= 9 && Abs(Remainder(i)) == Abs(i) % 10
    ensures Abs(Quotient(i)) == Abs(i) / 10 && (Quotient(i) == 0 <==> Abs(i) < 10)
    ensures Reversed(Digits(Abs(i))) ==
              [DIGITS[9 + Remainder(i)]] + (if Quotient(i) == 0 then [] else Reversed(Digits(Abs(Quotient(i)))))
  {
    MirroredTable(Remainder(i));
    if 10 <= Abs(i) {
      ReversedPush(Digits(Abs(i) / 10), Digit(Abs(i) % 10));
    }
  }

  /** One turn of the loop of convert: `done` has been written, `all` is to be. */
  lemma NextDigit(i: int, done: string, all: string)
    requires all == done + Reversed(Digits(Abs(i)))
    ensures -9 <= Remainder(i) <= 9 && (Quotient(i) != 0 ==> Abs(Quotient(i)) < Abs(i))
    ensures var done' := done + [DIGITS[9 + Remainder(i)]];
            if Quotient(i) == 0 then all == done' else all == done' + Reversed(Digits(Abs(Quotient(i))))
  {
    LeastDigit(i);
    hide Digits, Reversed, Remainder, Quotient;
    var digit := [DIGITS[9 + Remainder(i)]];
    assert digit + [] == digit;
    if Quotient(i) != 0 {
      Associative(done, digit, Reversed(Digits(Abs(Quotient(i)))));
    }
  }

  lemma TextReversed(v: int)
    ensures Text(v) == Reversed(Reversed(Digits(Abs(v))) + if v < 0 then ['-'] else [])
  {
    var d := Digits(Abs(v));
    assert Reversed(Reversed(d)) == d;
    if v < 0 {
      ReversedPush(Reversed(d), '-');
    } else {
      assert Reversed(d) + [] == Reversed(d);
    }
  }

  /** std::reverse(a + lo, a + hi) */
  method Reverse(a: array<char>, lo: nat, hi: nat)
    requires lo <= hi <= a.Length
    modifies a
    ensures a[lo..hi] == Reversed(old(a[lo..hi]))
    ensures forall k :: 0 <= k < lo || hi <= k < a.Length ==> a[k] == old(a[k])
  {
    hide Reversed;
    ghost var was := a[..];
    var l, h := lo, hi;
    while l < h && l != h - 1
      invariant lo <= l <= h <= hi && l - lo == hi - h
      invariant forall k :: lo <= k < l ==> a[k] == was[lo + hi - 1 - k]
      invariant forall k :: h <= k < hi ==> a[k] == was[lo + hi - 1 - k]
      invariant forall k :: l <= k < h ==> a[k] == was[k]
      invariant forall k :: 0 <= k < lo || hi <= k < a.Length ==> a[k] == was[k]
    {
      h := h - 1;
      a[l], a[h] := a[h], a[l];
      l := l + 1;
    }
    assert a[lo..hi] == Reversed(was[lo..hi]);
  }

  /** The loop of convert: the digits of |value|, least significant first, from
      `at` on. */
  method PutDigits(buf: array<char>, at: nat, value: int) returns (p: nat)
    requires at + |Digits(Abs(value))| <= buf.Length
    modifies buf
    ensures p == at + |Digits(Abs(value))|
    ensures buf[at..p] == Reversed(Digits(Abs(value)))
    ensures forall k :: 0 <= k < at || p <= k < buf.Length ==> buf[k] == old(buf[k])
  {
    hide Digits, Reversed, Remainder, Quotient;
    ghost var all := Reversed(Digits(Abs(value)));
    var i, again := value, true;
    p := at;
    while again
      invariant at <= p <= at + |all|
      invariant again ==> all == buf[at..p] + Reversed(Digits(Abs(i)))
      invariant !again ==> all == buf[at..p]
      invariant forall k :: 0 <= k < at || p <= k < buf.Length ==> buf[k] == old(buf[k])
      decreases again, Abs(i)
    {
      ghost var done := buf[at..p];
      NextDigit(i, done, all);
      var lsd := Remainder(i);
      i := Quotient(i);
      buf[p] := DIGITS[9 + lsd];
      p := p + 1;
      again := i != 0;
      assert buf[at..p] == done + [DIGITS[9 + lsd]];
    }
  }

  /** convert(buf + at, value): the text of `value` and a NUL are written, at most
      21 characters; the rest of the buffer is left alone. */
  method Convert(buf: array<char>, at: nat, value: int) returns (len: nat)
    requires -0x8000_0000_0000_0000 <= value < 0x1_0000_0000_0000_0000
    requires at + MAX_NUMBER_SIZE <= buf.Length
    modifies buf
    ensures len == |Text(value)| && len + 1 <= 21
    ensures buf[at..at + len] == Text(value) && buf[at + len] == '\0'
    ensures forall k :: 0 <= k < at || at + len < k < buf.Length ==> buf[k] == old(buf[k])
  {
    hide Digits, Reversed;
    FitsInTwenty(value);
    TextReversed(value);
    assert |Digits(Abs(value))| + (if value < 0 then 1 else 0) == |Text(value)|;
    var p := PutDigits(buf, at, value);
    if value < 0 {
      buf[p] := '-';
      p := p + 1;
    }
    assert buf[at..p] == Reversed(Digits(Abs(value))) + if value < 0 then ['-'] else [];
    assert p == at + |Text(value)|;
    buf[p] := '\0';
    Reverse(buf, at, p);
    len := p - at;
  }

  /** formatInteger: the decimal text is appended whenever at least 32 characters
      are free, and nothing happens otherwise. */
  method FormatInteger(buffer: FixBuffer, v: int)
    requires buffer.Valid()
    requires -0x8000_0000_0000_0000 <= v < 0x1_0000_0000_0000_0000
    modifies buffer`available, buffer.buff
    ensures buffer.Valid()
    ensures buffer.Contents() == old(buffer.Contents()) + if MAX_NUMBER_SIZE <= old(buffer.Free()) then Text(v) else []
  {
    if MAX_NUMBER_SIZE <= buffer.Free() {
      var len := Convert(buffer.buff, buffer.available, v);
      assert buffer.buff[..buffer.available] == old(buffer.Contents());
      buffer.Add(len);
    }
  }
}
