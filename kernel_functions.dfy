/** The kernel's own string and number utilities: `kstrcmp`, `itoa` and
    `print_kernel_size`. */
module KernelFunctions {
  import opened Base
  import opened Numerals
  import opened Console

  // ---------------------------------------------------------------------------
  // kstrcmp

  /** The offset at which the `kstrcmp` loop stops when started at `i`: the
      first offset from `i` on where `a` holds its terminator or the two strings
      differ. */
  function FirstDiff(a: string, b: string, i: nat): (k: nat)
    ensures i <= k
    ensures At(a, k) == '\0' || At(a, k) != At(b, k)
    ensures forall j :: i <= j < k ==> At(a, j) != '\0' && At(a, j) == At(b, j)
    decreases |a| - i
  {
    if At(a, i) != '\0' && At(a, i) == At(b, i) then FirstDiff(a, b, i + 1) else i
  }

  /** The value `kstrcmp(a, b)` returns: the difference of the two bytes at
      the first offset where the strings differ or `a` ends. A C `char` is a
      character whose code is the byte's value as an `unsigned char`, so the
      C casts read exactly the code. */
  function Compare(a: string, b: string): int
  {
    var k := FirstDiff(a, b, 0);
    At(a, k) as int - At(b, k) as int
  }

  /** `kstrcmp`: advance both pointers while `*str1` is not the terminator and
      equals `*str2`, then subtract the two bytes read as unsigned. */
  method Kstrcmp(str1: string, str2: string) returns (r: int)
    ensures r == Compare(str1, str2)
  {
    var i := 0;
    while At(str1, i) != '\0' && At(str1, i) == At(str2, i)
      invariant FirstDiff(str1, str2, i) == FirstDiff(str1, str2, 0)
      decreases |str1| - i
    {
      i := i + 1;
    }
    r := At(str1, i) as int - At(str2, i) as int;
  }

  /** The stopping offset is determined by its two defining conditions. */
  lemma FirstDiffIs(a: string, b: string, k: nat)
    requires forall j :: 0 <= j < k ==> At(a, j) != '\0' && At(a, j) == At(b, j)
    requires At(a, k) == '\0' || At(a, k) != At(b, k)
    ensures FirstDiff(a, b, 0) == k
  {
    var m := FirstDiff(a, b, 0);
    if m < k {
      assert false;
    } else if m > k {
      assert false;
    }
  }

  /** The C string stored in `s` ends at the first offset that reads NUL. */
  lemma CStringAtFirstNul(s: string, k: nat)
    requires forall j :: 0 <= j < k ==> At(s, j) != '\0'
    requires At(s, k) == '\0'
    ensures k <= |s| && CString(s) == s[..k]
  {
    assert k > |s| ==> At(s, |s|) != '\0';
    if k < |s| {
      assert forall c :: c in s[..k] ==> c != '\0' by {
        forall c | c in s[..k] ensures c != '\0' {
          var j :| 0 <= j < k && s[..k][j] == c;
          assert At(s, j) == c;
        }
      }
      CStringTerminated(s, k);
    } else {
      assert forall c :: c in s ==> c != '\0' by {
        forall c | c in s ensures c != '\0' {
          var j :| 0 <= j < |s| && s[j] == c;
          assert At(s, j) == c;
        }
      }
      CStringWhole(s);
      assert s[..k] == s;
    }
  }

  /** Reading a C string through `At` stops at its end. */
  lemma CStringAt(s: string)
    ensures forall j :: 0 <= j < |CString(s)| ==> At(s, j) == CString(s)[j] != '\0'
    ensures At(s, |CString(s)|) == '\0'
  {
    var t := CString(s);
    assert forall j :: 0 <= j < |t| ==> t[j] in t;
  }

  /** `kstrcmp` returns zero exactly when the two C strings are equal. */
  lemma CompareZeroIffEqual(a: string, b: string)
    ensures Compare(a, b) == 0 <==> CString(a) == CString(b)
  {
    var k := FirstDiff(a, b, 0);
    if Compare(a, b) == 0 {
      assert At(a, k) == At(b, k);
      assert forall j :: 0 <= j < k ==> At(b, j) != '\0';
      CStringAtFirstNul(a, k);
      CStringAtFirstNul(b, k);
      assert forall j :: 0 <= j < k ==> a[j] == At(a, j) == At(b, j) == b[j];
    }
    if CString(a) == CString(b) {
      var t := CString(a);
      CStringAt(a);
      CStringAt(b);
      FirstDiffIs(a, b, |t|);
    }
  }

  /** Swapping the arguments negates the result. */
  lemma CompareAntisymmetric(a: string, b: string)
    ensures Compare(b, a) == -Compare(a, b)
  {
    var k := FirstDiff(a, b, 0);
    FirstDiffIs(b, a, k);
  }

  /** Lexicographic order on strings by unsigned byte value, a proper prefix
      coming first. */
  predicate LexLess(x: string, y: string)
  {
    if x == [] then y != []
    else y != [] && (x[0] < y[0] || (x[0] == y[0] && LexLess(x[1..], y[1..])))
  }

  /** Past a shared first character the comparison continues on the tails. */
  lemma CompareTail(a: string, b: string)
    requires a != [] && b != [] && a[0] != '\0' && a[0] == b[0]
    ensures Compare(a, b) == Compare(a[1..], b[1..])
  {
    var k := FirstDiff(a[1..], b[1..], 0);
    assert forall j :: 0 <= j ==> At(a, j + 1) == At(a[1..], j) && At(b, j + 1) == At(b[1..], j);
    forall j | 0 <= j < k + 1
      ensures At(a, j) != '\0' && At(a, j) == At(b, j)
    {
      if j > 0 {
        assert At(a[1..], j - 1) != '\0' && At(a[1..], j - 1) == At(b[1..], j - 1);
      }
    }
    FirstDiffIs(a, b, k + 1);
  }

  /** The C string of a string that starts with a non-NUL character. */
  lemma CStringCons(s: string)
    requires s != [] && s[0] != '\0'
    ensures CString(s) == [s[0]] + CString(s[1..])
  {
  }

  /** `kstrcmp` is negative exactly when the first C string comes before the
      second, as the declaration's comment promises. */
  lemma {:induction false} CompareNegativeIffLess(a: string, b: string)
    ensures Compare(a, b) < 0 <==> LexLess(CString(a), CString(b))
    decreases |a|
  {
    if a == [] || a[0] == '\0' {
      assert CString(a) == [];
      FirstDiffIs(a, b, 0);
      if At(b, 0) != '\0' {
        assert CString(b) != [];
      }
    } else if b == [] || b[0] != a[0] {
      FirstDiffIs(a, b, 0);
      CStringCons(a);
      if b != [] && b[0] != '\0' {
        CStringCons(b);
      }
    } else {
      CompareTail(a, b);
      CStringCons(a);
      CStringCons(b);
      assert forall i :: 0 <= i < |a[1..]| ==> a[1..][i] == a[i + 1];
      assert forall i :: 0 <= i < |b[1..]| ==> b[1..][i] == b[i + 1];
      CompareNegativeIffLess(a[1..], b[1..]);
    }
  }

  // ---------------------------------------------------------------------------
  // itoa

  /** What `itoa(num, str, base)` leaves in `str` before the terminator: "0" for
      zero, a minus sign and the decimal digits of `-num` for a negative `num`
      in base 10, the digits of `num` in `base` otherwise. */
  function ItoaText(num: int, base: nat): (t: string)
    requires 2 <= base <= 36 && (num >= 0 || base == 10)
  {
    if num == 0 then "0"
    else if num < 0 then "-" + Digits(-num, 10)
    else Digits(num, base)
  }

  /** A digit string with an optional leading minus sign, read back. */
  function SignedParse(s: string, base: nat): int
  {
    if s != [] && s[0] == '-' then -Parse(s[1..], base) else Parse(s, base)
  }

  /** `itoa`'s text reads back as the number it was given, for every number
      and base the routine supports. */
  lemma ItoaRoundTrip(num: int, base: nat)
    requires 2 <= base <= 36 && (num >= 0 || base == 10)
    ensures SignedParse(ItoaText(num, base), base) == num
  {
    var t := ItoaText(num, base);
    if num < 0 {
      ParseDigits(-num, 10);
      assert t[0] == '-' && t[1..] == Digits(-num, 10);
    } else if num > 0 {
      ParseDigits(num, base);
      DigitsInBase(num, base);
      assert DigitValue(t[0]) >= 0;
    } else {
      assert t[..|t| - 1] == [] && DigitValue(t[|t| - 1]) == 0;
      assert Parse(t, base) == Parse([], base) * base + 0;
    }
  }

  /** Apart from a leading minus sign, `itoa`'s text is digits of the base with
      no leading zero (the single digit "0" aside). */
  lemma ItoaDigits(num: int, base: nat)
    requires 2 <= base <= 36 && (num >= 0 || base == 10)
    ensures var t := ItoaText(num, base);
      var digits := if num < 0 then t[1..] else t;
      && (num < 0 <==> t[0] == '-')
      && |digits| >= 1
      && (forall i :: 0 <= i < |digits| ==> 0 <= DigitValue(digits[i]) < base)
      && (num != 0 ==> digits[0] != '0')
      && (num == 0 ==> t == "0")
  {
    var t := ItoaText(num, base);
    if num < 0 {
      assert t[1..] == Digits(-num, 10);
      DigitsInBase(-num, 10);
      NoLeadingZero(-num, 10);
    } else if num > 0 {
      DigitsInBase(num, base);
      NoLeadingZero(num, base);
      assert DigitValue(t[0]) >= 0;
    }
  }

  /** A non-zero number's low-first digit string is as long as its digits. */
  lemma LowDigitsFirstLength(n: nat, base: nat)
    requires 2 <= base <= 36 && n > 0
    ensures |LowDigitsFirst(n, base)| == |Digits(n, base)|
  {
    ReverseLowDigitsFirst(n, base);
  }

  /** The reversal loop of `itoa`: swap `str[start]` and `str[end]` moving
      inwards until the indices meet, reversing `str[0..n)` in place. */
  method ReversePrefix(str: array<char>, n: nat)
    requires n <= str.Length
    modifies str
    ensures str[..] == Reverse(old(str[..n])) + old(str[n..])
  {
    var start, end := 0, n - 1;
    while start < end
      invariant 0 <= start <= n && end == n - 1 - start
      invariant start <= end + 1
      invariant forall k :: 0 <= k < start ==> str[k] == old(str[n - 1 - k])
      invariant forall k :: end < k < n ==> str[k] == old(str[n - 1 - k])
      invariant forall k :: start <= k <= end ==> str[k] == old(str[k])
      invariant forall k :: n <= k < str.Length ==> str[k] == old(str[k])
      decreases end - start
    {
      str[start], str[end] := str[end], str[start];
      start := start + 1;
      end := end - 1;
    }
    ReverseIndex(old(str[..n]));
    assert str[..n] == Reverse(old(str[..n]));
    assert str[..] == str[..n] + str[n..];
  }

  /** The digit loop of `itoa`: store the digits of `n` least significant
      first from the start of `str`, returning how many were stored. */
  method StoreLowDigits(str: array<char>, n: nat, base: nat) returns (i: nat)
    requires 2 <= base <= 36 && |LowDigitsFirst(n, base)| <= str.Length
    modifies str
    ensures i == |LowDigitsFirst(n, base)| && str[..] == LowDigitsFirst(n, base) + old(str[i..])
  {
    i := 0;
    var num: nat := n;
    ghost var stored: string := [];
    while num != 0
      invariant i == |stored| && i + |LowDigitsFirst(num, base)| <= str.Length
      invariant str[..i] == stored
      invariant stored + LowDigitsFirst(num, base) == LowDigitsFirst(n, base)
      invariant forall k :: i <= k < str.Length ==> str[k] == old(str[k])
      decreases num
    {
      NextLowDigit(num, base);
      var q: nat := num / base;
      var c := DigitChar(num % base);
      ghost var later := LowDigitsFirst(q, base);
      assert (stored + [c]) + later == stored + ([c] + later);
      str[i] := c;
      assert str[..i + 1] == str[..i] + [c];
      stored := stored + [c];
      i := i + 1;
      num := q;
    }
    assert str[..] == str[..i] + str[i..];
  }

  /** Overwriting the first character after `s` in `s + rest`. */
  lemma Overwrite(s: string, rest: string, c: char)
    requires rest != []
    ensures (s + rest)[|s| := c] == s + [c] + rest[1..]
  {
  }

  /** One step of the digit loop: the next digit produced is `num % base`. */
  lemma NextLowDigit(num: nat, base: nat)
    requires 2 <= base <= 36 && num != 0
    ensures LowDigitsFirst(num, base) == [DigitChar(num % base)] + LowDigitsFirst(num / base, base)
    ensures 0 <= num % base < base && 0 <= num / base < num
  {
    DivStep(num, base);
  }

  /** `itoa`'s text is what its loop stores, reversed: the digits least
      significant first, followed by the minus sign of a negative number. */
  lemma ItoaReversed(num: int, base: nat)
    requires 2 <= base <= 36 && (num >= 0 || base == 10) && num != 0
    ensures var low := LowDigitsFirst(if num < 0 then -num else num, base);
      var stored := if num < 0 then low + ['-'] else low;
      ItoaText(num, base) == Reverse(stored)
  {
    var m := if num < 0 then -num else num;
    var low := LowDigitsFirst(m, base);
    ReverseLowDigitsFirst(m, base);
    if num < 0 {
      ReverseSnoc(low, '-');
    }
  }

  /** `itoa(num, str, base)`: the digits least significant first, then a minus
      sign for a negative base-10 number, then the terminator, then the
      reversal; `str` must hold the text and its terminator. */
  method Itoa(num: int, str: array<char>, base: int)
    requires 2 <= base <= 36 && (num >= 0 || base == 10)
    requires -0x8000_0000 < num < 0x8000_0000
    requires |ItoaText(num, base)| < str.Length
    modifies str
    ensures var t := ItoaText(num, base);
      str[..] == t + ['\0'] + old(str[|t| + 1..])
  {
    var i := 0;
    ghost var orig := str[..];
    if num == 0 {
      str[i] := '0';
      i := i + 1;
      str[i] := '\0';
      assert str[..] == "0" + ['\0'] + orig[2..];
      return;
    }
    var isNegative := false;
    var n := num;
    if num < 0 && base == 10 {
      isNegative := true;
      n := -num;
    }
    ghost var low := LowDigitsFirst(n, base);
    ghost var stored := if isNegative then low + ['-'] else low;
    ItoaReversed(num, base);
    ghost var t := ItoaText(num, base);
    assert t == Reverse(stored) && |t| == |stored|;
    i := StoreLowDigits(str, n, base);
    if isNegative {
      Overwrite(low, orig[i..], '-');
      str[i] := '-';
      assert orig[i..][1..] == orig[i + 1..];
      i := i + 1;
    }
    assert str[..] == stored + orig[i..];
    Overwrite(stored, orig[i..], '\0');
    str[i] := '\0';
    assert orig[i..][1..] == orig[i + 1..];
    ghost var before := str[..];
    Associative(stored, ['\0'], orig[i + 1..]);
    assert before == stored + (['\0'] + orig[i + 1..]);
    assert before[..i] == stored && before[i..] == ['\0'] + orig[i + 1..];
    ReversePrefix(str, i);
    assert str[..] == t + (['\0'] + orig[i + 1..]);
    Associative(t, ['\0'], orig[i + 1..]);
  }

  // ---------------------------------------------------------------------------
  // print_kernel_size

  /** `MULTIBOOT_INFO_MEMORY`: flags bit 0, saying the `mem_lower` and
      `mem_upper` fields are valid (section 3.3 of the Multiboot Specification
      0.6.96). */
  const MultibootInfoMemory: bv32 := 0x0000_0001

  /** `((&_kernel_end - &_kernel_start) + 1023) / 1024`: the pointer difference
      counts 32-bit words, and the division rounds up. */
  function KernelSizeKB(words: nat): nat
  {
    (words + 1023) / 1024
  }

  /** The reported size is the number of 1024-unit blocks the difference
      needs: enough to cover it, one fewer would not, and zero only for zero. */
  lemma KernelSizeCeiling(words: nat)
    ensures var kb := KernelSizeKB(words);
      && words <= kb * 1024
      && (kb > 0 ==> (kb - 1) * 1024 < words)
      && (kb == 0 <==> words == 0)
  {
    var kb := KernelSizeKB(words);
    assert kb * 1024 <= words + 1023 < kb * 1024 + 1024;
  }

  /** The console after `print_kernel_size`: with the memory flag set, the
      label, the size in decimal and the unit, each as one `terminal_writestring`;
      otherwise the failure message. */
  function KernelSizeScreen(s: Screen, flags: bv32, words: nat): Screen
    requires OnScreen(s)
  {
    if flags & MultibootInfoMemory != 0 then
      var s1 := Written(s, "Kernel size: ");
      var s2 := Written(s1, Digits(KernelSizeKB(words), 10));
      Written(s2, "KB\n")
    else Written(s, "Could not determine memory size.\n")
  }

  /** What the console shows after `print_kernel_size` is what echoing one
      line of text shows: "Kernel size: ", the rounded-up size and "KB\n", or
      the failure message. */
  lemma KernelSizeText(s: Screen, flags: bv32, words: nat)
    requires OnScreen(s)
    ensures Visible(KernelSizeScreen(s, flags, words)) ==
      Visible(Echoed(s, if flags & MultibootInfoMemory != 0
        then "Kernel size: " + Digits(KernelSizeKB(words), 10) + "KB\n"
        else "Could not determine memory size.\n"))
  {
    if flags & MultibootInfoMemory != 0 {
      var a, b, c := "Kernel size: ", Digits(KernelSizeKB(words), 10), "KB\n";
      var s1 := Written(s, a);
      WrittenVisible(s, a);
      var s2 := Written(s1, b);
      WrittenVisible(s1, b);
      WrittenVisible(s2, c);
      EchoedVisible(s1, Echoed(s, a), b);
      EchoedVisible(s2, Echoed(Echoed(s, a), b), c);
      EchoedAppend(s, a, b);
      EchoedAppend(s, a + b, c);
    } else {
      WrittenVisible(s, "Could not determine memory size.\n");
    }
  }

  /** `print_kernel_size(mbi)`, given `mbi->flags` and the word difference of
      the two linker symbols (below 2^30 in a 32-bit address space). */
  method PrintKernelSize(term: Terminal, flags: bv32, words: nat)
    requires term.Valid() && words < 0x4000_0000
    modifies term, term.buffer
    ensures term.Valid()
    ensures term.Snapshot() == KernelSizeScreen(old(term.Snapshot()), flags, words)
  {
    if flags & MultibootInfoMemory != 0 {
      var kernelSize := (words + 1023) / 1024;
      CStringWhole("Kernel size: ");
      term.WriteString("Kernel size: ");
      term.WriteUint32(kernelSize);
      CStringWhole("KB\n");
      term.WriteString("KB\n");
    } else {
      CStringWhole("Could not determine memory size.\n");
      term.WriteString("Could not determine memory size.\n");
    }
  }
}
