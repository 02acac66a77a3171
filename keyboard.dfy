/** The keyboard side of the console: scan code set 1 translated through two
    128-entry US-layout tables, a persistent shift flag, and the filter that
    turns a stream of scancodes into the characters a reader receives. */
module Keyboard {
  import opened Base

  const LeftShiftPress: byte := 0x2A
  const RightShiftPress: byte := 0x36
  const LeftShiftRelease: byte := 0xAA
  const RightShiftRelease: byte := 0xB6

  /** Entries 96 to 127 of both tables: not in the C initializers, so zero. */
  const Unlisted: seq<char> :=
    [ '\0', '\0', '\0', '\0', '\0', '\0', '\0', '\0', '\0', '\0', '\0', '\0', '\0', '\0', '\0', '\0',
      '\0', '\0', '\0', '\0', '\0', '\0', '\0', '\0', '\0', '\0', '\0', '\0', '\0', '\0', '\0', '\0' ]

  /** Characters for make codes 0..127 without shift. */
  const Unshifted: seq<char> := UnshiftedListed + Unlisted

  /** Characters for make codes 0..127 with shift held. */
  const Shifted: seq<char> := ShiftedListed + Unlisted

  /** The initialized entries 0..95 of the unshifted table, one literal per
      line of the C initializer. */
  const UnshiftedListed: seq<char> :=
    ['\0', '\0', '1', '2', '3', '4', '5', '6', '7', '8', '9', '0', '-', '=', '\U{8}', '\t'] +
    ['q', 'w', 'e', 'r', 't', 'y', 'u', 'i', 'o', 'p', '[', ']', '\n', '\0'] +
    ['a', 's', 'd', 'f', 'g', 'h', 'j', 'k', 'l', ';', '\'', '`', '\0', '\\', 'z', 'x'] +
    ['c', 'v', 'b', 'n', 'm', ',', '.', '/', '\0', '*', '\0', ' ', '\0'] +
    // function keys
    ['\0', '\0', '\0', '\0', '\0', '\0', '\0', '\0', '\0', '\0', '\0', '\0'] +
    // numeric keypad
    ['7', '8', '9', '-', '4', '5', '6', '+', '1', '2', '3', '0', '.'] +
    // other keys
    ['\0', '\0', '\0', '\0', '\0', '\0', '\0', '\0', '\0', '\0', '\0', '\0']

  /** The initialized entries 0..95 of the shifted table, one literal per
      line of the C initializer. */
  const ShiftedListed: seq<char> :=
    ['\0', '\0', '!', '@', '#', '$', '%', '^', '&', '*', '(', ')', '_', '+', '\U{8}', '\t'] +
    ['Q', 'W', 'E', 'R', 'T', 'Y', 'U', 'I', 'O', 'P', '{', '}', '\n', '\0'] +
    ['A', 'S', 'D', 'F', 'G', 'H', 'J', 'K', 'L', ':', '"', '~', '\0', '|', 'Z', 'X'] +
    ['C', 'V', 'B', 'N', 'M', '<', '>', '?', '\0', '*', '\0', ' ', '\0'] +
    // function keys
    ['\0', '\0', '\0', '\0', '\0', '\0', '\0', '\0', '\0', '\0', '\0', '\0'] +
    // numeric keypad
    ['7', '8', '9', '-', '4', '5', '6', '+', '1', '2', '3', '0', '.'] +
    // other keys
    ['\0', '\0', '\0', '\0', '\0', '\0', '\0', '\0', '\0', '\0', '\0', '\0']

  /** The outcome of one `scancode_to_ascii` call: the character (0 for none)
      and the shift flag afterwards. */
  datatype Decoded = Decoded(ch: char, shift: bool)

  /** `scancode_to_ascii`: a shift press sets the flag, a shift release clears
      it, and both produce no character; any other code above 127 produces no
      character; a code up to 127 is looked up in the table the flag selects. */
  function Decode(scancode: byte, shift: bool): Decoded
  {
    if scancode == LeftShiftPress || scancode == RightShiftPress then Decoded('\0', true)
    else if scancode == LeftShiftRelease || scancode == RightShiftRelease then Decoded('\0', false)
    else if scancode > 127 then Decoded('\0', shift)
    else Decoded((if shift then Shifted else Unshifted)[scancode as int], shift)
  }

  /** A break (key release) code: the make code with bit 7 set. */
  predicate IsBreak(scancode: byte)
  {
    scancode >= 0x80
  }

  /** The characters `terminal_getchar` hands to its caller. */
  predicate Accepted(c: char)
  {
    c == '\n' || c == '\r' || c >= ' '
  }

  /** The result of reading one character: the character (none once the
      scancodes run out), the scancodes not yet consumed, and the shift flag. */
  datatype Read = Read(key: Option<char>, rest: seq<byte>, shift: bool)

  /** Whether `terminal_getchar` returns on `scancode`: a make code that decodes
      to newline, carriage return or a character from space upward. */
  predicate Returns(scancode: byte, shift: bool)
  {
    !IsBreak(scancode) && Accepted(Decode(scancode, shift).ch)
  }

  /** The shift flag after `terminal_getchar` consumes `scancode`: a break code
      that is a shift release is decoded a second time. */
  function ShiftAfter(scancode: byte, shift: bool): bool
  {
    var d := Decode(scancode, shift);
    if IsBreak(scancode) && (scancode == LeftShiftRelease || scancode == RightShiftRelease)
    then Decode(scancode, d.shift).shift
    else d.shift
  }

  /** `terminal_getchar` over a finite stream of scancodes: decode each one; a
      break code is skipped (a shift release is decoded a second time first);
      a make code that decodes to newline, carriage return or a character from
      space upward is returned; anything else is skipped. */
  function ReadChar(scancodes: seq<byte>, shift: bool): Read
    decreases |scancodes|
  {
    if scancodes == [] then Read(None, [], shift)
    else if Returns(scancodes[0], shift) then
      Read(Some(Decode(scancodes[0], shift).ch), scancodes[1..], ShiftAfter(scancodes[0], shift))
    else ReadChar(scancodes[1..], ShiftAfter(scancodes[0], shift))
  }

  /** The reader consumes a prefix of its input and leaves the rest untouched:
      at least one scancode when it returns a character, all of them when it
      runs out. */
  lemma {:induction false} ReadCharConsumes(scancodes: seq<byte>, shift: bool)
    ensures var r := ReadChar(scancodes, shift);
      && |r.rest| <= |scancodes| && r.rest == scancodes[|scancodes| - |r.rest|..]
      && (r.key.Some? ==> |r.rest| < |scancodes|)
      && (r.key.None? ==> r.rest == [])
    decreases |scancodes|
  {
    if scancodes != [] {
      var tail := scancodes[1..];
      if Returns(scancodes[0], shift) {
        assert ReadChar(scancodes, shift).rest == tail;
      } else {
        var next := ShiftAfter(scancodes[0], shift);
        ReadCharConsumes(tail, next);
        assert ReadChar(scancodes, shift) == ReadChar(tail, next);
        var n := |ReadChar(tail, next).rest|;
        assert tail[|tail| - n..] == scancodes[|scancodes| - n..];
      }
    }
  }

  // ---------------------------------------------------------------------------
  // The tables and the decoder

  /** Both tables hold 128 entries, and entries 96 to 127 are empty. */
  lemma TablesShape()
    ensures |Unshifted| == 128 && |Shifted| == 128
    ensures forall i :: 96 <= i < 128 ==> Unshifted[i] == '\0' && Shifted[i] == '\0'
  {
    assert |UnshiftedListed| == 96 && |ShiftedListed| == 96;
    assert forall i :: 0 <= i < 32 ==> Unlisted[i] == '\0';
    forall i | 96 <= i < 128
      ensures Unshifted[i] == '\0' && Shifted[i] == '\0'
    {
      assert Unshifted[i] == Unlisted[i - 96] && Shifted[i] == Unlisted[i - 96];
    }
  }

  /** Shift presses set the flag and shift releases clear it, producing no
      character; other codes above 127 produce nothing and keep the flag; codes
      up to 127 read the table the flag selects and keep the flag. */
  lemma DecodeCases(scancode: byte, shift: bool)
    ensures scancode == 0x2A || scancode == 0x36 ==> Decode(scancode, shift) == Decoded('\0', true)
    ensures scancode == 0xAA || scancode == 0xB6 ==> Decode(scancode, shift) == Decoded('\0', false)
    ensures scancode > 127 && scancode != 0xAA && scancode != 0xB6 ==>
      Decode(scancode, shift) == Decoded('\0', shift)
    ensures scancode <= 127 && scancode != 0x2A && scancode != 0x36 ==>
      Decode(scancode, shift) == Decoded(if shift then Shifted[scancode as int] else Unshifted[scancode as int], shift)
  {
  }

  /** Decoding a shift release twice leaves the same state as decoding it once,
      so the second decode `terminal_getchar` makes changes nothing: the flag
      after any scancode is the flag a single decode leaves. */
  lemma ReleaseIdempotent(scancode: byte, shift: bool)
    ensures scancode == LeftShiftRelease || scancode == RightShiftRelease ==>
      Decode(scancode, Decode(scancode, shift).shift) == Decode(scancode, shift)
    ensures ShiftAfter(scancode, shift) == Decode(scancode, shift).shift
  {
  }

  /** `terminal_getchar` tests `scancode & 0x80`: on an 8-bit value, bit 7 is
      set exactly for the codes from 0x80 up, the ones the decoder treats as
      above 127. */
  lemma BreakIsHighBit(scancode: byte)
    ensures IsBreak(scancode) <==> (scancode as bv8) & 0x80 != 0
    ensures IsBreak(scancode) <==> scancode > 127
  {
  }

  // ---------------------------------------------------------------------------
  // The reader

  /** `terminal_getchar` never hands out a control character other than
      newline and carriage return. */
  lemma {:induction false} ReadCharAccepted(scancodes: seq<byte>, shift: bool)
    ensures ReadChar(scancodes, shift).key.Some? ==> Accepted(ReadChar(scancodes, shift).key.value)
    decreases |scancodes|
  {
    if scancodes != [] && !Returns(scancodes[0], shift) {
      ReadCharAccepted(scancodes[1..], ShiftAfter(scancodes[0], shift));
    }
  }

  /** The character returned comes from the last scancode consumed, which is a
      make code (a break code never causes a return), decoded with the shift
      flag left at the end. */
  lemma {:induction false} ReadCharFromMakeCode(scancodes: seq<byte>, shift: bool)
    requires ReadChar(scancodes, shift).key.Some?
    ensures |ReadChar(scancodes, shift).rest| < |scancodes|
    ensures var r := ReadChar(scancodes, shift);
      var last := scancodes[|scancodes| - |r.rest| - 1];
      && !IsBreak(last) && last <= 127
      && r.key.value == Decode(last, r.shift).ch
    decreases |scancodes|
  {
    var r := ReadChar(scancodes, shift);
    ReadCharConsumes(scancodes, shift);
    var first, tail := scancodes[0], scancodes[1..];
    if Returns(first, shift) {
      ReturnsKeepsShift(first, shift);
    } else {
      var next := ShiftAfter(first, shift);
      assert r == ReadChar(tail, next);
      ReadCharConsumes(tail, next);
      ReadCharFromMakeCode(tail, next);
      assert tail[|tail| - |r.rest| - 1] == scancodes[|scancodes| - |r.rest| - 1];
    }
  }

  /** A scancode the reader returns on is a make code and leaves the shift
      flag as it was. */
  lemma ReturnsKeepsShift(scancode: byte, shift: bool)
    requires Returns(scancode, shift)
    ensures scancode <= 127 && ShiftAfter(scancode, shift) == shift
  {
    assert scancode != LeftShiftPress && scancode != RightShiftPress;
  }

  /** Scancodes that produce no accepted character are consumed silently: a
      reader given them first and then more input returns what it returns for
      the more input, with the shift flag those scancodes leave behind. */
  lemma {:induction false} ReadCharSkips(skipped: seq<byte>, more: seq<byte>, shift: bool)
    requires ReadChar(skipped, shift).key.None?
    ensures ReadChar(skipped + more, shift) == ReadChar(more, ReadChar(skipped, shift).shift)
    decreases |skipped|
  {
    if skipped != [] {
      assert !Returns(skipped[0], shift);
      assert (skipped + more)[0] == skipped[0] && (skipped + more)[1..] == skipped[1..] + more;
      ReadCharSkips(skipped[1..], more, ShiftAfter(skipped[0], shift));
    } else {
      assert skipped + more == more;
    }
  }

  /** Holding shift selects the shifted table: after a shift press, a make code
      whose shifted character is accepted is returned as that character, with
      the flag still set, whatever the flag was before. */
  lemma {:induction false} ShiftPressSelectsShifted(press: byte, code: byte, rest: seq<byte>, shift: bool)
    requires press == LeftShiftPress || press == RightShiftPress
    requires code <= 127 && code != LeftShiftPress && code != RightShiftPress
    requires Accepted(Shifted[code as int])
    ensures ReadChar([press, code] + rest, shift) == Read(Some(Shifted[code as int]), rest, true)
  {
    var tail := [code] + rest;
    KeyPressReturns(code, rest, true);
    ShiftPressSkipped(press, tail, shift);
    assert [press, code] + rest == [press] + tail;
  }

  // ---------------------------------------------------------------------------
  // The keyboard state

  /** The keyboard's persistent state: the shift flag `scancode_to_ascii`
      keeps between calls. */
  class Keyboard {
    var shiftPressed: bool

    /** The flag starts cleared. */
    constructor ()
      ensures !shiftPressed
    {
      shiftPressed := false;
    }

    /** `scancode_to_ascii`. */
    method ScancodeToAscii(scancode: byte) returns (c: char)
      modifies this
      ensures Decoded(c, shiftPressed) == Decode(scancode, old(shiftPressed))
    {
      if scancode == LeftShiftPress || scancode == RightShiftPress {
        shiftPressed := true;
        return '\0';
      } else if scancode == LeftShiftRelease || scancode == RightShiftRelease {
        shiftPressed := false;
        return '\0';
      }
      if scancode > 127 {
        return '\0';
      }
      if shiftPressed {
        c := Shifted[scancode as int];
      } else {
        c := Unshifted[scancode as int];
      }
    }

    /** `terminal_getchar`, reading from `scancodes` instead of polling the
        controller: returns the character and the scancodes left over, or no
        character once the scancodes run out. */
    method GetChar(scancodes: seq<byte>) returns (key: Option<char>, rest: seq<byte>)
      modifies this
      ensures Read(key, rest, shiftPressed) == ReadChar(scancodes, old(shiftPressed))
    {
      rest := scancodes;
      while rest != []
        invariant ReadChar(rest, shiftPressed) == ReadChar(scancodes, old(shiftPressed))
        decreases |rest|
      {
        var scancode := rest[0];
        rest := rest[1..];
        var c := ScancodeToAscii(scancode);
        if IsBreak(scancode) {
          if scancode == LeftShiftRelease || scancode == RightShiftRelease {
            c := ScancodeToAscii(scancode);
          }
          continue;
        }
        if c == '\n' || c == '\r' {
          return Some(c), rest;
        }
        if c >= ' ' {
          return Some(c), rest;
        }
      }
      key := None;
    }
  }

  /** Pressing a key other than shift returns its table entry at once when
      that is accepted. */
  lemma KeyPressReturns(code: byte, rest: seq<byte>, shift: bool)
    requires code <= 127 && code != LeftShiftPress && code != RightShiftPress
    requires Accepted(if shift then Shifted[code as int] else Unshifted[code as int])
    ensures ReadChar([code] + rest, shift) ==
      Read(Some(if shift then Shifted[code as int] else Unshifted[code as int]), rest, shift)
  {
    assert ([code] + rest)[1..] == rest;
  }

  /** Pressing shift is skipped and sets the shift flag. */
  lemma ShiftPressSkipped(press: byte, rest: seq<byte>, shift: bool)
    requires press == LeftShiftPress || press == RightShiftPress
    ensures ReadChar([press] + rest, shift) == ReadChar(rest, true)
  {
    assert ([press] + rest)[1..] == rest;
  }

  /** Releasing a key other than shift is skipped and leaves the shift flag
      alone. */
  lemma KeyReleaseSkipped(code: byte, rest: seq<byte>, shift: bool)
    requires code > 127 && code != LeftShiftRelease && code != RightShiftRelease
    ensures ReadChar([code] + rest, shift) == ReadChar(rest, shift)
  {
    assert ([code] + rest)[1..] == rest;
  }
}
