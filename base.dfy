/** Machine-level vocabulary shared by the kernel's console, keyboard and shell:
    8-bit values, an optional value, and C's NUL-terminated strings. */
module Base {

  /** A C `uint8_t` / `unsigned char`: a scancode, a colour attribute, a port
      data byte. The value is held as an integer; where the C code applies a
      bitwise operation to it, a lemma relates that operation to arithmetic. */
  newtype byte = b: int | 0 <= b < 0x100

  /** A C `uint16_t`: an I/O port number. */
  newtype uint16 = p: int | 0 <= p < 0x1_0000

  datatype Option<T> = None | Some(value: T)

  /** The character a C string pointer reads at offset `i`; past the end of the
      modelled storage it reads the terminator. */
  function At(s: string, i: nat): (c: char)
    ensures i < |s| ==> c == s[i]
  {
    if i < |s| then s[i] else '\0'
  }

  /** The C string stored in `s`: everything before the first NUL (all of `s`
      when it holds none), which is what `strlen` measures. */
  function CString(s: string): (t: string)
    ensures '\0' !in t
    ensures t <= s
    ensures |t| < |s| ==> s[|t|] == '\0'
  {
    if s == [] || s[0] == '\0' then [] else [s[0]] + CString(s[1..])
  }

  /** A string with no NUL in it is its own C string. */
  lemma {:induction false} CStringWhole(s: string)
    requires '\0' !in s
    ensures CString(s) == s
  {
    if s != [] {
      CStringWhole(s[1..]);
    }
  }

  /** A buffer that holds `n` non-NUL characters and then a NUL stores exactly
      those `n` characters, whatever follows the terminator. */
  lemma {:induction false} CStringTerminated(s: string, n: nat)
    requires n < |s| && s[n] == '\0' && '\0' !in s[..n]
    ensures CString(s) == s[..n]
  {
    if n > 0 {
      assert s[0] in s[..n];
      assert s[1..][..n - 1] == s[1..n];
      assert forall c :: c in s[1..][..n - 1] ==> c in s[..n];
      CStringTerminated(s[1..], n - 1);
    }
  }

  /** Concatenation regroups freely. */
  lemma Associative(a: string, b: string, c: string)
    ensures a + (b + c) == a + b + c
  {
  }
}
