/** Decimal text as the orchestrator writes it and the lines read it back:
    `snprintf(buf, size, "%d", x)` into a fixed buffer, and `strtol(s, NULL,
    10)` on the receiving side. */
module Decimal {

  predicate IsDigit(c: char) {
    '0' <= c <= '9'
  }

  function DigitValue(c: char): (d: int)
    requires IsDigit(c)
    ensures 0 <= d < 10
  {
    c as int - '0' as int
  }

  function DigitChar(d: nat): (c: char)
    requires d < 10
    ensures IsDigit(c) && DigitValue(c) == d
  {
    ('0' as int + d) as char
  }

  /** The text `%d` produces for a non-negative value: its decimal digits,
      most significant first, with no leading zero. */
  function DecimalString(x: nat): (s: string)
    ensures 1 <= |s|
    ensures forall i :: 0 <= i < |s| ==> IsDigit(s[i])
    ensures 1 < |s| ==> s[0] != '0'
  {
    if x < 10 then [DigitChar(x)] else DecimalString(x / 10) + [DigitChar(x % 10)]
  }

  function Pow10(k: nat): (p: nat)
    ensures 1 <= p
  {
    if k == 0 then 1 else 10 * Pow10(k - 1)
  }

  /** A value prints in at most `k` digits exactly when it is below 10^k. */
  lemma {:induction false} Width(x: nat, k: nat)
    requires 1 <= k
    ensures |DecimalString(x)| <= k <==> x < Pow10(k)
    decreases x
  {
    if x >= 10 {
      var q := x / 10;
      assert x == 10 * q + x % 10;
      assert |DecimalString(x)| == |DecimalString(q)| + 1;
      if k == 1 {
        assert Pow10(1) == 10;
        assert |DecimalString(q)| >= 1;
      } else {
        Width(q, k - 1);
        assert Pow10(k) == 10 * Pow10(k - 1);
        assert q < Pow10(k - 1) <==> x < 10 * Pow10(k - 1);
      }
    } else {
      assert Pow10(k) == 10 * Pow10(k - 1);
    }
  }

  /** The text `%d` produces for any value: a minus sign before the digits
      of a negative one. */
  function Printed(x: int): (s: string)
    ensures 1 <= |s|
    ensures 0 <= x ==> s == DecimalString(x)
    ensures x < 0 <==> s[0] == '-'
    ensures forall i :: (if x < 0 then 1 else 0) <= i < |s| ==> IsDigit(s[i])
  {
    if x < 0 then "-" + DecimalString(-x) else DecimalString(x)
  }

  /** What `snprintf(buf, size, "%d", x)` leaves in a buffer of `size`
      bytes, without its terminating zero byte: the text, cut to the
      `size - 1` characters that fit. */
  function Format(size: nat, x: int): (s: string)
    requires 1 <= size
    ensures |s| < size
    ensures |s| == if |Printed(x)| < size then |Printed(x)| else size - 1
    ensures s <= Printed(x)
    ensures s == Printed(x) <==> |Printed(x)| < size
  {
    var text := Printed(x);
    if |text| < size then text else text[..size - 1]
  }

  /** A non-negative value below 10^(size-1) is written whole into a buffer
      of `size` bytes, and one at or above is cut. */
  lemma FormatFits(size: nat, x: nat)
    requires 2 <= size
    ensures Format(size, x) == DecimalString(x) <==> x < Pow10(size - 1)
  {
    Width(x, size - 1);
  }

  /** The white space `strtol` skips before a number. */
  predicate IsSpace(c: char) {
    c == ' ' || c == '\t' || c == '\n' || c == '\r' || c == '\U{000B}' || c == '\U{000C}'
  }

  function SkipSpace(s: string): string {
    if |s| > 0 && IsSpace(s[0]) then SkipSpace(s[1..]) else s
  }

  /** Skipping white space drops exactly the white space in front: what is
      left is a suffix of the input that is empty or starts with something
      else, and everything dropped is white space. */
  lemma {:induction false} SkipsLeadingSpace(s: string)
    ensures var t := SkipSpace(s);
      && |t| <= |s|
      && t == s[|s| - |t|..]
      && (t == [] || !IsSpace(t[0]))
      && forall i :: 0 <= i < |s| - |t| ==> IsSpace(s[i])
  {
    if |s| > 0 && IsSpace(s[0]) {
      SkipsLeadingSpace(s[1..]);
      var t := SkipSpace(s);
      assert s[1..][|s| - 1 - |t|..] == s[|s| - |t|..];
      forall i | 0 <= i < |s| - |t|
        ensures IsSpace(s[i])
      {
        if i > 0 {
          assert s[i] == s[1..][i - 1];
        }
      }
    }
  }

  /** The longest prefix of `s` made of digits. */
  function LeadingDigits(s: string): (d: string)
    ensures d <= s
    ensures forall i :: 0 <= i < |d| ==> IsDigit(d[i])
    ensures |d| == |s| || !IsDigit(s[|d|])
  {
    if |s| > 0 && IsDigit(s[0]) then [s[0]] + LeadingDigits(s[1..]) else []
  }

  /** The value of a string of digits, most significant first. */
  function DigitsValue(d: string): (v: nat)
    requires forall i :: 0 <= i < |d| ==> IsDigit(d[i])
  {
    if d == [] then 0 else 10 * DigitsValue(d[..|d| - 1]) + DigitValue(d[|d| - 1])
  }

  /** `strtol(s, NULL, 10)`: skip white space, read an optional sign, then
      as many digits as follow; no digits read as zero. */
  function Strtol(s: string): int {
    var t := SkipSpace(s);
    if |t| > 0 && t[0] == '-' then 0 - DigitsValue(LeadingDigits(t[1..])) as int
    else if |t| > 0 && t[0] == '+' then DigitsValue(LeadingDigits(t[1..]))
    else DigitsValue(LeadingDigits(t))
  }

  /** A text without a digit holds no number, and `strtol` reads it as 0. */
  lemma {:induction false} StrtolNoDigits(s: string)
    requires forall i :: 0 <= i < |s| ==> !IsDigit(s[i])
    ensures Strtol(s) == 0
  {
    var t := SkipSpace(s);
    SkipsLeadingSpace(s);
    assert forall i :: 0 <= i < |t| ==> t[i] == s[|s| - |t| + i];
    if |t| > 1 {
      assert !IsDigit(t[1..][0]);
    }
  }

  lemma {:induction false} AllDigitsLead(s: string)
    requires forall i :: 0 <= i < |s| ==> IsDigit(s[i])
    ensures LeadingDigits(s) == s
  {
    if |s| > 0 {
      AllDigitsLead(s[1..]);
      assert s == [s[0]] + s[1..];
    }
  }

  lemma {:induction false} DigitsOfDecimal(x: nat)
    ensures DigitsValue(DecimalString(x)) == x
    decreases x
  {
    if x >= 10 {
      var d := DecimalString(x);
      assert d[..|d| - 1] == DecimalString(x / 10);
      DigitsOfDecimal(x / 10);
    }
  }

  lemma {:induction false} ParseDigits(x: nat)
    ensures SkipSpace(DecimalString(x)) == DecimalString(x)
    ensures DigitsValue(LeadingDigits(DecimalString(x))) == x
  {
    var d := DecimalString(x);
    assert !IsSpace(d[0]);
    AllDigitsLead(d);
    DigitsOfDecimal(x);
  }

  lemma {:induction false} ParseNegative(x: int)
    requires x < 0
    ensures Strtol(Printed(x)) == x
  {
    var d := DecimalString(-x);
    ParseDigits(-x);
    var t := Printed(x);
    assert t == "-" + d;
    assert t[0] == '-' && !IsSpace(t[0]);
    assert SkipSpace(t) == t;
    assert t[1..] == d;
  }

  /** Reading back what `%d` printed gives the value printed. */
  lemma {:induction false} ParsePrinted(x: int)
    ensures Strtol(Printed(x)) == x
  {
    if x < 0 {
      ParseNegative(x);
    } else {
      var d := DecimalString(x);
      ParseDigits(x);
      assert d[0] != '-' && d[0] != '+';
    }
  }

  /** The range of a C `int`. */
  const IntMin := -0x8000_0000
  const IntMax := 0x7FFF_FFFF

  /** Storing a `long` in an `int`: values in range are kept, others are
      reduced modulo 2^32 into the range, as two's-complement targets do. */
  function ToInt(v: int): (r: int)
    ensures IntMin <= r <= IntMax
    ensures (v - r) % 0x1_0000_0000 == 0
    ensures IntMin <= v <= IntMax ==> r == v
  {
    if IntMin <= v <= IntMax then v else (v - IntMin) % 0x1_0000_0000 + IntMin
  }

  /** `int x = strtol(s, NULL, 10);`: the number read from `s`, narrowed
      to an `int`. */
  function ReadInt(s: string): (r: int)
    ensures IntMin <= r <= IntMax
    ensures IntMin <= Strtol(s) <= IntMax ==> r == Strtol(s)
  {
    ToInt(Strtol(s))
  }

  /** Any `int` printed with `%d` reads back as itself. */
  lemma {:induction false} ReadIntPrinted(x: int)
    requires IntMin <= x <= IntMax
    ensures ReadInt(Printed(x)) == x
  {
    ParsePrinted(x);
  }

  /** A number just past the `int` range changes on the way in: it reads
      as itself minus 2^32, so 3000000000 reads as -1294967296. */
  lemma {:induction false} WideNumberWraps(v: int)
    requires IntMax < v <= IntMax + 0x1_0000_0000
    ensures ReadInt(Printed(v)) == v - 0x1_0000_0000
  {
    ParsePrinted(v);
    var w := v - IntMin - 0x1_0000_0000;
    assert 0 <= w < 0x1_0000_0000;
    assert v - IntMin == w + 0x1_0000_0000;
    assert (v - IntMin) % 0x1_0000_0000 == w;
  }

  /** Reading back what `snprintf` wrote into a buffer of `size` bytes
      gives the value printed, whenever the value was below 10^(size-1). */
  lemma {:induction false} BufferRoundTrip(size: nat, x: nat)
    requires 2 <= size && x < Pow10(size - 1)
    ensures Strtol(Format(size, x)) == x
    ensures x <= IntMax ==> ReadInt(Format(size, x)) == x
  {
    FormatFits(size, x);
    ParsePrinted(x);
  }
}
