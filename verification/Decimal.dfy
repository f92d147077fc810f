/** Integer to text: `convert` of log/LogStream.cpp, with C's truncating division. */
module Decimal {

  /** C's `/` and `%`: the quotient is cut towards zero. */
  function TruncDiv(a: int, b: int): int
    requires b > 0
  {
    if a >= 0 then a / b else -((-a) / b)
  }

  function TruncMod(a: int, b: int): int
    requires b > 0
  {
    a - TruncDiv(a, b) * b
  }

  const DIGITS := "9876543210123456789"
  const ZERO: nat := 9

  predicate IsDigit(c: char) { '0' <= c <= '9' }

  function DigitValue(c: char): (d: nat)
    requires IsDigit(c)
    ensures d <= 9
  {
    c as int - '0' as int
  }

  function DigitChar(d: nat): (c: char)
    requires d <= 9
    ensures IsDigit(c) && DigitValue(c) == d
  {
    (d + '0' as int) as char
  }

  /** The decimal numeral of `n`. */
  function Numeral(n: nat): (s: string)
    ensures |s| >= 1
  {
    if n < 10 then [DigitChar(n)] else Numeral(n / 10) + [DigitChar(n % 10)]
  }

  /** The text of a signed integer. */
  function Render(v: int): string {
    if v < 0 then "-" + Numeral(-v) else Numeral(v)
  }

  predicate AllDigits(s: string) {
    forall i | 0 <= i < |s| :: IsDigit(s[i])
  }

  /** The reader: digits from the left, most significant first. */
  function ReadNat(s: string): nat
    requires AllDigits(s)
  {
    if s == "" then 0 else ReadNat(s[..|s| - 1]) * 10 + DigitValue(s[|s| - 1])
  }

  function ReadInt(s: string): int
    requires AllDigits(if |s| > 0 && s[0] == '-' then s[1..] else s)
  {
    if |s| > 0 && s[0] == '-' then 0 - ReadNat(s[1..]) else ReadNat(s)
  }

  predicate Canonical(s: string) {
    |s| >= 1 && AllDigits(s) && (|s| > 1 ==> s[0] != '0')
  }

  lemma {:induction false} NumeralRoundTrip(n: nat)
    ensures AllDigits(Numeral(n)) && ReadNat(Numeral(n)) == n
    ensures Canonical(Numeral(n))
    ensures n > 0 ==> Numeral(n)[0] != '0'
  {
    if n < 10 {
      assert Numeral(n)[..0] == "";
      assert ReadNat(Numeral(n)) == ReadNat("") * 10 + n;
    } else {
      var hi := Numeral(n / 10);
      NumeralRoundTrip(n / 10);
      assert Numeral(n)[..|hi|] == hi;
    }
  }

  /** The numeral is the only canonical text of its value. */
  lemma {:induction false} CanonicalIsNumeral(s: string)
    requires Canonical(s)
    ensures Numeral(ReadNat(s)) == s
  {
    var front, last := s[..|s| - 1], DigitValue(s[|s| - 1]);
    assert s == front + [DigitChar(last)];
    if front == "" {
      assert ReadNat(s) == last;
    } else {
      CanonicalIsNumeral(front);
      CanonicalPositive(front);
      assert ReadNat(s) / 10 == ReadNat(front);
    }
  }

  lemma {:induction false} CanonicalPositive(s: string)
    requires |s| >= 1 && AllDigits(s) && s[0] != '0'
    ensures ReadNat(s) >= 1
  {
    if |s| > 1 {
      CanonicalPositive(s[..|s| - 1]);
    } else {
      assert s[..0] == "";
    }
  }

  /** Reading what was rendered gives the value back, for every integer, minimum included. */
  lemma RenderRoundTrip(v: int)
    ensures AllDigits(if Render(v)[0] == '-' then Render(v)[1..] else Render(v))
    ensures ReadInt(Render(v)) == v
    ensures v < 0 <==> Render(v)[0] == '-'
  {
    if v < 0 {
      NumeralRoundTrip(-v);
      assert Render(v)[1..] == Numeral(-v);
    } else {
      NumeralRoundTrip(v);
    }
  }

  function Pow10(k: nat): nat { if k == 0 then 1 else 10 * Pow10(k - 1) }

  /** A numeral has at most k digits exactly when the value is below 10^k. */
  lemma {:induction false} NumeralLength(n: nat, k: nat)
    requires k >= 1
    ensures |Numeral(n)| <= k <==> n < Pow10(k)
  {
    if k == 1 {
      assert Pow10(1) == 10;
    } else if n >= 10 {
      NumeralLength(n / 10, k - 1);
      assert n < 10 * Pow10(k - 1) <==> n / 10 < Pow10(k - 1);
    } else {
      Pow10Positive(k - 1);
    }
  }

  lemma {:induction false} Pow10Positive(k: nat)
    ensures Pow10(k) >= 1
  {
    if k > 0 { Pow10Positive(k - 1); }
  }

  /** Every 64-bit value, signed or unsigned, fits with its terminator in the 32 bytes reserved for it. */
  lemma SixtyFourBitFits(v: int)
    requires -0x8000_0000_0000_0000 <= v <= 0xFFFF_FFFF_FFFF_FFFF
    ensures |Render(v)| + 1 <= 21 < 32
  {
    assert Pow10(19) == 10000000000000000000 && Pow10(20) == 100000000000000000000 by {
      assert Pow10(4) == 10000;
      assert Pow10(8) == 100000000;
      assert Pow10(12) == 1000000000000;
      assert Pow10(16) == 10000000000000000;
    }
    if v < 0 { NumeralLength(-v, 19); } else { NumeralLength(v, 20); }
  }

  function Reverse(s: string): (r: string)
    ensures |r| == |s|
    ensures forall i | 0 <= i < |s| :: r[i] == s[|s| - 1 - i]
  {
    if s == "" then "" else Reverse(s[1..]) + [s[0]]
  }

  /** `std::reverse` on the first `n` characters. */
  method ReverseRange(buf: array<char>, n: nat)
    requires n <= buf.Length
    modifies buf
    ensures buf[..n] == Reverse(old(buf[..n]))
    ensures forall k | n <= k < buf.Length :: buf[k] == old(buf[k])
  {
    var i, j := 0, n;
    while i < j && i < j - 1
      invariant 0 <= i <= n && j == n - i && i <= j + 1
      invariant forall k | 0 <= k < i || j <= k < n :: buf[k] == old(buf[n - 1 - k])
      invariant forall k | i <= k < j || n <= k < buf.Length :: buf[k] == old(buf[k])
      decreases j - i
    {
      j := j - 1;
      buf[i], buf[j] := buf[j], buf[i];
      i := i + 1;
    }
  }

  /**
    The do-while loop: the digits of `|value|`, last one first, through a table indexed with a
    remainder of either sign. The access to DIGITS carries the proof that the index is in [-9, 9]
    around ZERO.
   */
  method WriteDigits(buf: array<char>, value: int) returns (p: nat)
    requires |Numeral(Abs(value))| <= buf.Length
    modifies buf
    ensures p == |Numeral(Abs(value))|
    ensures Reverse(buf[..p]) == Numeral(Abs(value))
    ensures forall k | p <= k < buf.Length :: buf[k] == old(buf[k])
  {
    var i := value;
    p := 0;
    ghost var all := Numeral(Abs(value));
    while true
      invariant p < |all| && Numeral(Abs(i)) + Reverse(buf[..p]) == all
      invariant forall k | p <= k < buf.Length :: buf[k] == old(buf[k])
      decreases Abs(i)
    {
      ghost var before := buf[..p];
      var lsd := TruncMod(i, 10);
      DigitStep(i);
      WriteStep(all, i, before);
      i := TruncDiv(i, 10);
      buf[p] := DIGITS[ZERO + lsd];
      p := p + 1;
      assert buf[..p] == before + [DIGITS[ZERO + lsd]];
      if i == 0 { break; }
    }
  }

  /** One more digit of `all`, and whether it was the last. */
  lemma WriteStep(all: string, i: int, before: string)
    requires Numeral(Abs(i)) + Reverse(before) == all
    ensures -9 <= TruncMod(i, 10) <= 9
    ensures var next, text := TruncDiv(i, 10), before + [DIGITS[ZERO + TruncMod(i, 10)]];
      Pending(next) + Reverse(text) == all && (next != 0 ==> |text| < |all|)
  {
    DigitStep(i);
    ReverseSnoc(before, DIGITS[ZERO + TruncMod(i, 10)]);
    assert Pending(TruncDiv(i, 10)) + ([DIGITS[ZERO + TruncMod(i, 10)]] + Reverse(before)) == all;
  }

  /** Digits and sign, last character first. */
  method WriteReversed(buf: array<char>, value: int) returns (len: nat)
    requires |Render(value)| < buf.Length
    modifies buf
    ensures len == |Render(value)| && Reverse(buf[..len]) == Render(value)
    ensures forall k | len < k < buf.Length :: buf[k] == old(buf[k])
  {
    len := WriteDigits(buf, value);
    if value < 0 {
      ghost var digits := buf[..len];
      buf[len] := '-';
      len := len + 1;
      assert buf[..len] == digits + ['-'];
      ReverseSnoc(digits, '-');
    }
  }

  /** The text, its terminator, then the reversal in place. */
  method Convert(buf: array<char>, value: int) returns (len: nat)
    requires |Render(value)| < buf.Length
    modifies buf
    ensures len == |Render(value)|
    ensures buf[..len] == Render(value) && buf[len] == '\0'
    ensures forall k | len < k < buf.Length :: buf[k] == old(buf[k])
  {
    len := WriteReversed(buf, value);
    ghost var text := buf[..len];
    buf[len] := '\0';
    assert buf[..len] == text;
    ReverseRange(buf, len);
  }

  function Abs(i: int): nat { if i < 0 then -i else i }

  /** What the loop has still to write: nothing once `i` is zero. */
  ghost function Pending(i: int): string { if i == 0 then "" else Numeral(Abs(i)) }

  lemma DigitStep(i: int)
    ensures -9 <= TruncMod(i, 10) <= 9
    ensures Pending(TruncDiv(i, 10)) + [DIGITS[ZERO + TruncMod(i, 10)]] == Numeral(Abs(i))
    ensures Abs(TruncDiv(i, 10)) == Abs(i) / 10
  {
    DigitTable(Abs(i) % 10);
    TruncIsSymmetric(i);
  }

  lemma TruncIsSymmetric(i: int)
    ensures Abs(TruncDiv(i, 10)) == Abs(i) / 10
    ensures TruncMod(i, 10) == if i < 0 then -(Abs(i) % 10) else Abs(i) % 10
  {}

  /** The table reads the same from its middle in both directions. */
  lemma DigitTable(d: nat)
    requires d <= 9
    ensures DIGITS[ZERO + d] == DIGITS[ZERO - d] == DigitChar(d)
  {}

  lemma {:induction false} ReverseSnoc(s: string, c: char)
    ensures Reverse(s + [c]) == [c] + Reverse(s)
  {
    assert |Reverse(s + [c])| == |[c] + Reverse(s)|;
  }
}
