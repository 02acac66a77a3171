/** The hardware text cursor: a linear cell position sent to the VGA CRT
    controller as two bytes, through its index/data register pair. */
module Cursor {
  import opened Base

  /** One `outb(port, value)`. */
  datatype PortWrite = PortWrite(port: uint16, value: byte)

  /** CRT controller index register and data register. */
  const CrtIndex: uint16 := 0x3D4
  const CrtData: uint16 := 0x3D5
  /** CRT controller registers holding the cursor location's low and high byte. */
  const CursorLowRegister: byte := 0x0F
  const CursorHighRegister: byte := 0x0E

  const Columns := 80

  /** `row * VGA_WIDTH + col` truncated to the 16 bits of the C `unsigned short`. */
  function Position(row: nat, col: nat): (pos: nat)
    ensures pos < 0x1_0000
  {
    (row * Columns + col) % 0x1_0000
  }

  /** The four port writes that place the cursor at the 16-bit linear position
      `pos`: select the low-byte register, send the low byte (`pos & 0xFF`),
      select the high-byte register, send the high byte (`(pos >> 8) & 0xFF`). */
  function PositionWrites(pos: nat): seq<PortWrite>
    requires pos < 0x1_0000
  {
    [PortWrite(CrtIndex, CursorLowRegister), PortWrite(CrtData, (pos % 256) as byte),
     PortWrite(CrtIndex, CursorHighRegister), PortWrite(CrtData, (pos / 256 % 256) as byte)]
  }

  /** `terminal_setcursor(row, col)`. */
  function SetCursor(row: nat, col: nat): seq<PortWrite>
  {
    PositionWrites(Position(row, col))
  }

  /** `terminal_movecursor(x, y)`: `pos = y * VGA_WIDTH + x` kept in a
      `uint16_t`, then the low byte and the high byte of `pos` through the
      same index/data register pair. */
  function MoveCursor(x: nat, y: nat): seq<PortWrite>
  {
    var pos := (y * Columns + x) % 0x1_0000;
    [PortWrite(CrtIndex, CursorLowRegister), PortWrite(CrtData, (pos % 256) as byte),
     PortWrite(CrtIndex, CursorHighRegister), PortWrite(CrtData, (pos / 256) as byte)]
  }

  /** The two cursor routines, each computing its own position, send the same
      writes; only the order of their arguments differs. */
  lemma MoveCursorIsSetCursor(x: nat, y: nat)
    ensures MoveCursor(x, y) == SetCursor(y, x)
  {
    var pos := (y * Columns + x) % 0x1_0000;
    assert pos == Position(y, x);
    assert pos / 256 % 256 == pos / 256;
  }

  /** The cell a cursor write sequence designates, read back as the controller
      would: low byte plus 256 times high byte, split into row and column. */
  function Designated(w: seq<PortWrite>): (rc: (nat, nat))
    requires |w| == 4
  {
    var pos := w[1].value as nat + 256 * w[3].value as nat;
    (pos / Columns, pos % Columns)
  }

  /** For an on-screen cell the cursor writes are exactly the register protocol,
      the two data bytes recombine to `row * 80 + col`, that position is below
      2000, and reading the writes back recovers the cell. */
  lemma {:induction false} CursorWritesOnScreen(row: nat, col: nat)
    requires row < 25 && col < Columns
    ensures var w := SetCursor(row, col);
      && |w| == 4
      && w[0] == PortWrite(0x3D4, 0x0F) && w[2] == PortWrite(0x3D4, 0x0E)
      && w[1].port == 0x3D5 && w[3].port == 0x3D5
      && w[1].value as nat + 256 * w[3].value as nat == row * Columns + col < 2000
      && Designated(w) == (row, col)
  {
    var pos := Position(row, col);
    assert pos == row * Columns + col;
  }
}
