/** Positional digit strings: the text `itoa` builds for any base from 2 to 36
    and the decimal text `terminal_write_uint32` prints. */
module Numerals {

  /** The digit character for `d`: '0'..'9' for 0..9, then 'a'..'z' for 10..35,
      as `itoa` chooses it (`rem > 9 ? rem - 10 + 'a' : rem + '0'`). */
  function DigitChar(d: nat): (c: char)
    requires d < 36
    ensures DigitValue(c) == d
  {
    if d > 9 then (d - 10 + 'a' as int) as char else (d + '0' as int) as char
  }

  /** The value of a digit character, independently of any base; -1 when `c`
      is not a digit of any base up to 36. */
  function DigitValue(c: char): int
  {
    if '0' <= c <= '9' then c as int - '0' as int
    else if 'a' <= c <= 'z' then c as int - 'a' as int + 10
    else -1
  }

  /** The digits of `n` in `base`, most significant first, with no leading zero;
      zero is the single digit "0". */
  function Digits(n: nat, base: nat): (s: string)
    requires 2 <= base <= 36
    ensures |s| >= 1
    decreases n
  {
    if n < base then [DigitChar(n)]
    else
      DivStep(n, base);
      Digits(n / base, base) + [DigitChar(n % base)]
  }

  /** The digits of `n` least significant first, in the order a divide-by-base
      loop produces them; empty for zero. */
  function LowDigitsFirst(n: nat, base: nat): (s: string)
    requires 2 <= base <= 36
    decreases n
  {
    if n == 0 then []
    else
      DivStep(n, base);
      [DigitChar(n % base)] + LowDigitsFirst(n / base, base)
  }

  /** The value of a digit string read most significant digit first. */
  function Parse(s: string, base: nat): int
  {
    if s == [] then 0 else Parse(s[..|s| - 1], base) * base + DigitValue(s[|s| - 1])
  }

  function Reverse(s: string): (r: string)
    ensures |r| == |s|
  {
    if s == [] then [] else Reverse(s[1..]) + [s[0]]
  }

  /** Position `k` of the reverse is position `|s| - 1 - k` of the original. */
  lemma {:induction false} ReverseIndex(s: string)
    ensures forall k :: 0 <= k < |s| ==> Reverse(s)[k] == s[|s| - 1 - k]
  {
    if s != [] {
      ReverseIndex(s[1..]);
    }
  }

  /** Reversing a string with one more character at the end puts it first. */
  lemma {:induction false} ReverseSnoc(s: string, c: char)
    ensures Reverse(s + [c]) == [c] + Reverse(s)
  {
    ReverseIndex(s + [c]);
    ReverseIndex(s);
  }

  function Pow(base: nat, k: nat): nat
  {
    if k == 0 then 1 else base * Pow(base, k - 1)
  }

  /** Every character of `Digits(n, base)` is a digit of that base. */
  lemma {:induction false} DigitsInBase(n: nat, base: nat)
    requires 2 <= base <= 36
    ensures forall i :: 0 <= i < |Digits(n, base)| ==> 0 <= DigitValue(Digits(n, base)[i]) < base
  {
    DivStep(n, base);
    if n >= base {
      var q, r := n / base, n % base;
      DigitsInBase(q, base);
      var s := Digits(q, base) + [DigitChar(r)];
      assert Digits(n, base) == s;
      assert forall i :: 0 <= i < |s| - 1 ==> s[i] == Digits(q, base)[i];
      assert DigitValue(s[|s| - 1]) == r;
    } else {
      assert Digits(n, base) == [DigitChar(n)];
    }
  }

  /** Reading the digits back gives the number: `Digits` is a faithful encoding. */
  lemma {:induction false} ParseDigits(n: nat, base: nat)
    requires 2 <= base <= 36
    ensures Parse(Digits(n, base), base) == n
  {
    if n >= base {
      var s := Digits(n, base);
      var q, r := n / base, n % base;
      DivStep(n, base);
      assert s == Digits(q, base) + [DigitChar(r)];
      assert s[..|s| - 1] == Digits(q, base);
      assert DigitValue(s[|s| - 1]) == r;
      ParseDigits(q, base);
      assert Parse(s, base) == q * base + r;
    }
  }

  /** The first digit of a non-zero number is not '0'. */
  lemma {:induction false} NoLeadingZero(n: nat, base: nat)
    requires 2 <= base <= 36 && n > 0
    ensures Digits(n, base)[0] != '0'
  {
    DivStep(n, base);
    if n >= base {
      var q := n / base;
      NoLeadingZero(q, base);
      assert Digits(n, base) == Digits(q, base) + [DigitChar(n % base)];
    } else {
      assert Digits(n, base) == [DigitChar(n)];
    }
  }

  /** A number below `base^k` (k >= 1) has at most `k` digits. */
  lemma {:induction false} DigitsLength(n: nat, base: nat, k: nat)
    requires 2 <= base <= 36 && 1 <= k && n < Pow(base, k)
    ensures |Digits(n, base)| <= k
  {
    DivStep(n, base);
    assert Pow(base, 1) == base;
    if n >= base {
      assert k >= 2;
      var q := n / base;
      assert Pow(base, k) == base * Pow(base, k - 1);
      DivBelow(n, base, Pow(base, k - 1));
      DigitsLength(q, base, k - 1);
      assert Digits(n, base) == Digits(q, base) + [DigitChar(n % base)];
    } else {
      assert Digits(n, base) == [DigitChar(n)];
    }
  }

  /** What the divide-by-base recursions need to know about one division step. */
  lemma DivStep(n: nat, base: nat)
    requires base >= 2
    ensures n == n / base * base + n % base && 0 <= n % base < base
    ensures n < base ==> n / base == 0 && n % base == n
    ensures n >= base ==> 1 <= n / base < n
    ensures n > 0 ==> n / base < n
  {
  }

  lemma DivBelow(n: nat, base: nat, p: nat)
    requires base >= 1 && n < base * p
    ensures n / base < p
  {
    var q := n / base;
    assert q * base <= n;
    MulCancel(q, p, base);
  }

  lemma MulCancel(q: nat, p: nat, base: nat)
    requires base >= 1 && q * base < p * base
    ensures q < p
  {
  }

  /** The least-significant-first string of a non-zero number is the reverse of
      its digits: reversing a divide-by-base loop's output gives `Digits`. */
  lemma {:induction false} ReverseLowDigitsFirst(n: nat, base: nat)
    requires 2 <= base <= 36 && n > 0
    ensures Reverse(LowDigitsFirst(n, base)) == Digits(n, base)
  {
    var low := LowDigitsFirst(n, base);
    var q, r := n / base, n % base;
    DivStep(n, base);
    assert low == [DigitChar(r)] + LowDigitsFirst(q, base);
    assert low[1..] == LowDigitsFirst(q, base);
    assert Reverse(low) == Reverse(LowDigitsFirst(q, base)) + [DigitChar(r)];
    if n < base {
      assert q == 0 && r == n;
    } else {
      ReverseLowDigitsFirst(q, base);
    }
  }

  /** A 32-bit unsigned value has at most ten decimal digits. */
  lemma DecimalOfUint32(n: nat)
    requires n < 0x1_0000_0000
    ensures |Digits(n, 10)| <= 10
  {
    assert Pow(10, 10) == 10000000000 by {
      assert Pow(10, 5) == 100000;
      calc {
        Pow(10, 10);
        == 10 * Pow(10, 9);
        == 100 * Pow(10, 8);
        == 1000 * Pow(10, 7);
        == 10000 * Pow(10, 6);
        == 100000 * Pow(10, 5);
      }
    }
    DigitsLength(n, 10, 10);
  }
}
