/** The VGA text console: an 80x25 grid of (character, colour) cells, the
    software cursor (row, column), the current colour, line wrap, scrolling,
    the hardware cursor sync and the console's number output. */
module Console {
  import opened Base
  import opened Cursor
  import opened Numerals

  const Width := 80
  const Height := 25
  const Size := Width * Height

  /** One display cell: a character and its colour attribute. */
  datatype Cell = Cell(ch: char, color: byte)

  /** Light grey on black, the colour `terminal_initialize` selects. */
  const DefaultColor: byte := 0x07

  /** The console as a value: the cells in row-major order, the position where
      the next character goes, the current colour, and every port write the
      console has issued so far, oldest first. */
  datatype Screen = Screen(cells: seq<Cell>, row: nat, column: nat, color: byte, ports: seq<PortWrite>)

  /** The invariant every public console operation keeps. */
  predicate OnScreen(s: Screen)
  {
    |s.cells| == Size && s.row < Height && s.column < Width
  }

  /** The cell index of column `x` in row `y`. */
  function Index(x: nat, y: nat): nat
  {
    y * Width + x
  }

  /** Where row `y` and the row below it start, for a row above the bottom. */
  lemma RowStart(y: nat)
    requires y < Height - 1
    ensures (y + 1) * Width == y * Width + Width && y * Width + 2 * Width <= Size
    ensures forall x :: Index(x, y) == y * Width + x && Index(x, y + 1) == y * Width + Width + x
  {
  }

  /** The linear position of the software cursor. */
  function Linear(s: Screen): nat
  {
    Index(s.column, s.row)
  }

  /** What the console shows, leaving out the port log. */
  function Visible(s: Screen): (seq<Cell>, nat, nat, byte)
  {
    (s.cells, s.row, s.column, s.color)
  }

  /** A row of blank cells in `color`. */
  function BlankRow(color: byte): (r: seq<Cell>)
    ensures |r| == Width && forall x :: 0 <= x < Width ==> r[x] == Cell(' ', color)
  {
    seq(Width, _ => Cell(' ', color))
  }

  /** `terminal_scroll`: once the row has run past the bottom, every row moves
      up one, the bottom row is cleared to the current colour and the row is
      pulled back by one; otherwise nothing changes. */
  function Scrolled(s: Screen): Screen
    requires |s.cells| == Size && s.row <= Height
  {
    if s.row >= Height then s.(cells := s.cells[Width..] + BlankRow(s.color), row := s.row - 1)
    else s
  }

  /** `terminal_putchar(c)`: newline moves to the start of the next row and
      scrolls at the bottom; carriage return goes to column 0; any other
      character is stored at the cursor in the current colour and the cursor
      advances, wrapping to the next row at the right edge and back to row 0
      (without scrolling) below the bottom row. The hardware cursor then
      follows the software one. */
  function Put(s: Screen, c: char): (r: Screen)
    requires OnScreen(s)
    ensures OnScreen(r) && r.color == s.color
    ensures r.ports == s.ports + MoveCursor(r.column, r.row)
  {
    var t :=
      if c == '\n' then Scrolled(s.(row := s.row + 1, column := 0))
      else if c == '\r' then s.(column := 0)
      else
        var cells := s.cells[Index(s.column, s.row) := Cell(c, s.color)];
        if s.column + 1 < Width then Scrolled(s.(cells := cells, column := s.column + 1))
        else if s.row + 1 < Height then Scrolled(s.(cells := cells, row := s.row + 1, column := 0))
        else Scrolled(s.(cells := cells, row := 0, column := 0));
    t.(ports := t.ports + MoveCursor(t.column, t.row))
  }

  /** The console after `terminal_putchar` of each character of `text` in turn. */
  function Echoed(s: Screen, text: string): (r: Screen)
    requires OnScreen(s)
    ensures OnScreen(r) && r.color == s.color
    ensures s.ports <= r.ports
    decreases |text|
  {
    if text == [] then s else Put(Echoed(s, text[..|text| - 1]), text[|text| - 1])
  }

  /** `terminal_write(text, |text|)`: the characters, then one final cursor sync. */
  function Written(s: Screen, text: string): (r: Screen)
    requires OnScreen(s)
    ensures OnScreen(r) && r.color == s.color
  {
    var t := Echoed(s, text);
    t.(ports := t.ports + SetCursor(t.row, t.column))
  }

  /** After `terminal_initialize`: every cell blank in light grey on black, the
      cursor at the top left. */
  function Initial(ports: seq<PortWrite>): (s: Screen)
    ensures OnScreen(s) && s.row == 0 && s.column == 0 && s.color == DefaultColor
    ensures forall i :: 0 <= i < Size ==> s.cells[i] == Cell(' ', DefaultColor)
  {
    Screen(seq(Size, _ => Cell(' ', DefaultColor)), 0, 0, DefaultColor, ports)
  }

  // ---------------------------------------------------------------------------
  // What one character does

  /** Carriage return only moves to column 0 of the same row. */
  lemma PutCarriageReturn(s: Screen)
    requires OnScreen(s)
    ensures var r := Put(s, '\r');
      r.cells == s.cells && r.row == s.row && r.column == 0 && r.color == s.color
  {
  }

  /** Newline above the bottom row moves to the start of the next row and
      changes no cell. */
  lemma PutNewlineAboveBottom(s: Screen)
    requires OnScreen(s) && s.row < Height - 1
    ensures var r := Put(s, '\n');
      r.cells == s.cells && r.row == s.row + 1 && r.column == 0
  {
  }

  /** Newline on the bottom row scrolls exactly once: each cell takes the
      contents of the cell one row below it, the bottom row becomes blank in the
      current colour, and the cursor stays on the bottom row at column 0. */
  lemma PutNewlineOnBottom(s: Screen)
    requires OnScreen(s) && s.row == Height - 1
    ensures var r := Put(s, '\n');
      && r.row == Height - 1 && r.column == 0
      && (forall i :: 0 <= i < Size - Width ==> r.cells[i] == s.cells[i + Width])
      && (forall i :: Size - Width <= i < Size ==> r.cells[i] == Cell(' ', s.color))
  {
    var r := Put(s, '\n');
    assert r.cells == s.cells[Width..] + BlankRow(s.color);
  }

  /** Any other character fills exactly the cell under the cursor, in the
      current colour, and advances the cursor one linear position, wrapping
      from the last cell to the first: the bottom-right corner sends the cursor
      to the top left instead of scrolling. */
  lemma PutOrdinary(s: Screen, c: char)
    requires OnScreen(s) && c != '\n' && c != '\r'
    ensures var r := Put(s, c);
      && r.cells == s.cells[Linear(s) := Cell(c, s.color)]
      && Linear(r) == (if Linear(s) + 1 < Size then Linear(s) + 1 else 0)
      && (s.column + 1 < Width ==> r.row == s.row && r.column == s.column + 1)
      && (s.column + 1 == Width && s.row + 1 < Height ==> r.row == s.row + 1 && r.column == 0)
      && (s.column + 1 == Width && s.row + 1 == Height ==> r.row == 0 && r.column == 0)
  {
    var r := Put(s, c);
    var cells := s.cells[Linear(s) := Cell(c, s.color)];
    if s.column + 1 < Width {
      assert r.cells == cells && r.row == s.row && r.column == s.column + 1;
      assert Linear(r) == Linear(s) + 1 < Size;
    } else if s.row + 1 < Height {
      assert r.cells == cells && r.row == s.row + 1 && r.column == 0;
      assert Linear(r) == Linear(s) + 1 < Size;
    } else {
      assert r.cells == cells && r.row == 0 && r.column == 0;
      assert Linear(s) + 1 == Size;
    }
  }

  // ---------------------------------------------------------------------------
  // What a string does

  lemma EchoedOne(s: Screen, c: char)
    requires OnScreen(s)
    ensures Echoed(s, [c]) == Put(s, c)
  {
    assert [c][..0] == [];
  }

  lemma EchoedSnoc(s: Screen, text: string, c: char)
    requires OnScreen(s)
    ensures Echoed(s, text + [c]) == Put(Echoed(s, text), c)
  {
    assert (text + [c])[..|text|] == text;
  }

  /** Echoing a concatenation is echoing its parts one after the other. */
  lemma {:induction false} EchoedAppend(s: Screen, a: string, b: string)
    requires OnScreen(s)
    ensures Echoed(s, a + b) == Echoed(Echoed(s, a), b)
    decreases |b|
  {
    if b == [] {
      assert a + b == a;
    } else {
      var b' := b[..|b| - 1];
      assert (a + b)[..|a + b| - 1] == a + b';
      assert (a + b)[|a + b| - 1] == b[|b| - 1];
      EchoedAppend(s, a, b');
    }
  }

  /** What is shown after echoing depends only on what was shown before, not
      on the port log. */
  lemma {:induction false} EchoedVisible(s: Screen, s': Screen, text: string)
    requires OnScreen(s) && OnScreen(s') && Visible(s) == Visible(s')
    ensures Visible(Echoed(s, text)) == Visible(Echoed(s', text))
    decreases |text|
  {
    if text != [] {
      EchoedVisible(s, s', text[..|text| - 1]);
    }
  }

  /** Writing shows the same as echoing; only the final cursor sync differs. */
  lemma WrittenVisible(s: Screen, text: string)
    requires OnScreen(s)
    ensures OnScreen(Written(s, text)) && Visible(Written(s, text)) == Visible(Echoed(s, text))
  {
  }

  predicate Ordinary(text: string)
  {
    forall i :: 0 <= i < |text| ==> text[i] != '\n' && text[i] != '\r'
  }

  function Colored(text: string, color: byte): (r: seq<Cell>)
    ensures |r| == |text| && forall i :: 0 <= i < |text| ==> r[i] == Cell(text[i], color)
  {
    seq(|text|, i requires 0 <= i < |text| => Cell(text[i], color))
  }

  /** Ordinary characters fill consecutive cells from the cursor on, in the
      current colour, leave every other cell alone, and leave the cursor just
      after them (back at the top left once the last cell is filled). */
  lemma {:induction false} EchoedOrdinary(s: Screen, text: string)
    requires OnScreen(s) && Ordinary(text) && Linear(s) + |text| <= Size
    ensures var r := Echoed(s, text);
      && r.cells == s.cells[..Linear(s)] + Colored(text, s.color) + s.cells[Linear(s) + |text|..]
      && Linear(r) == (if Linear(s) + |text| < Size then Linear(s) + |text| else 0)
    decreases |text|
  {
    if text == [] {
      var p := Linear(s);
      assert Colored(text, s.color) == [] && Echoed(s, text) == s;
      assert s.cells[..p] + [] + s.cells[p..] == s.cells;
    } else {
      var t := text[..|text| - 1];
      var c := text[|text| - 1];
      assert Ordinary(t);
      EchoedOrdinary(s, t);
      EchoedSnoc(s, t, c);
      assert t + [c] == text;
      OrdinaryStep(s, Echoed(s, t), t, c);
    }
  }

  /** The induction step of `EchoedOrdinary`: one more ordinary character
      after a fill of `t` extends the fill by one cell. */
  lemma OrdinaryStep(s: Screen, m: Screen, t: string, c: char)
    requires OnScreen(s) && OnScreen(m) && m.color == s.color && c != '\n' && c != '\r'
    requires Linear(s) + |t| < Size && Linear(m) == Linear(s) + |t|
    requires m.cells == s.cells[..Linear(s)] + Colored(t, s.color) + s.cells[Linear(s) + |t|..]
    ensures var r := Put(m, c);
      && r.cells == s.cells[..Linear(s)] + Colored(t + [c], s.color) + s.cells[Linear(s) + |t| + 1..]
      && Linear(r) == (if Linear(s) + |t| + 1 < Size then Linear(s) + |t| + 1 else 0)
  {
    PutOrdinary(m, c);
    FillOne(s.cells, m.cells, Linear(s), t, c, s.color);
  }

  /** One more cell of a fill: the cells before the run, the run, the rest. */
  lemma FillOne(cells: seq<Cell>, filled: seq<Cell>, p: nat, t: string, c: char, color: byte)
    requires p + |t| < |cells|
    requires filled == cells[..p] + Colored(t, color) + cells[p + |t|..]
    ensures filled[p + |t| := Cell(c, color)]
      == cells[..p] + Colored(t + [c], color) + cells[p + |t| + 1..]
  {
    var lhs := filled[p + |t| := Cell(c, color)];
    var rhs := cells[..p] + Colored(t + [c], color) + cells[p + |t| + 1..];
    assert |lhs| == |rhs|;
    forall i | 0 <= i < |lhs|
      ensures lhs[i] == rhs[i]
    {
      if i < p {
        assert lhs[i] == cells[i];
      } else if i < p + |t| {
        assert lhs[i] == Colored(t, color)[i - p];
      } else if i > p + |t| {
        assert lhs[i] == cells[i];
      }
    }
  }

  /** Filling the whole screen from the top left returns the cursor to the top
      left without scrolling, so the next character overwrites the first cell
      rather than pushing the first line off the screen. */
  lemma FullScreenWraps(s: Screen, text: string, c: char)
    requires OnScreen(s) && s.row == 0 && s.column == 0
    requires Ordinary(text) && |text| == Size && c != '\n' && c != '\r'
    ensures var full := Echoed(s, text);
      && full.cells == Colored(text, s.color)
      && full.row == 0 && full.column == 0
      && Echoed(s, text + [c]).cells == Colored(text, s.color)[0 := Cell(c, s.color)]
  {
    EchoedOrdinary(s, text);
    var full := Echoed(s, text);
    assert s.cells[..0] == [] && s.cells[Size..] == [];
    assert full.cells == Colored(text, s.color);
    PutOrdinary(full, c);
    EchoedSnoc(s, text, c);
  }

  // ---------------------------------------------------------------------------
  // Number output

  const HexDigits := "0123456789ABCDEF"

  /** The value of an upper-case hexadecimal digit, -1 for any other character. */
  function HexValue(c: char): int
  {
    if '0' <= c <= '9' then c as int - '0' as int
    else if 'A' <= c <= 'F' then c as int - 'A' as int + 10
    else -1
  }

  /** The text `terminal_write_hex(num)` prints: "0x", then the high and the
      low nibble as upper-case hex digits. */
  function HexText(num: byte): string
  {
    "0x" + [HexDigits[num as int / 16], HexDigits[num as int % 16]]
  }

  /** The C code selects the digits with `(num >> 4) & 0xF` and `num & 0xF`:
      on an 8-bit value these are the quotient and remainder by 16. */
  lemma NibbleValues(bits: bv8)
    ensures (bits >> 4) & 0xF == bits / 16
    ensures bits & 0xF == bits % 16
  {
  }

  /** The hex text is "0x" and exactly two upper-case hex digits, and those
      digits read back as `num`. */
  lemma {:induction false} HexTextValue(num: byte)
    ensures var t := HexText(num);
      && |t| == 4 && t[..2] == "0x" && t[2] in HexDigits && t[3] in HexDigits
      && HexValue(t[2]) * 16 + HexValue(t[3]) == num as int
  {
    var high, low := num as int / 16, num as int % 16;
    assert num as int == high * 16 + low && high < 16;
    HexDigitValue(high);
    HexDigitValue(low);
  }

  /** Each hex digit reads back as its position in `HexDigits`. */
  lemma HexDigitValue(k: nat)
    requires k < 16
    ensures HexValue(HexDigits[k]) == k
  {
    if k < 10 {
      assert HexDigits[..10] == "0123456789";
    } else {
      assert HexDigits[10..] == "ABCDEF";
    }
  }

  /** The decimal text of a 32-bit value as `terminal_write_uint32` builds it,
      corrected so that zero gives "0": the text is the C string that starts
      at the first stored digit. */
  method FormatUint32(num: nat) returns (text: string)
    requires num < 0x1_0000_0000
    ensures text == Digits(num, 10) && 1 <= |text| <= 10
  {
    var str := new char[11];
    var i: int := 10;
    str[i] := '\0';
    i := i - 1;
    if num == 0 {
      str[i] := '0';
      i := i - 1;
    } else {
      i := StoreDigits(str, i, num);
    }
    text := CString(str[i + 1..]);
    TerminatedDigits(str[i + 1..], num);
    DecimalOfUint32(num);
  }

  /** `terminal_write_uint32`'s digit buffer exactly as written: for zero it
      stores '0' but does not step back, so the C string it prints starts at
      the terminator and is empty. */
  method FormatUint32AsWritten(num: nat) returns (text: string)
    requires num < 0x1_0000_0000
    ensures num == 0 ==> text == []
    ensures num > 0 ==> text == Digits(num, 10) && |text| <= 10
  {
    var str := new char[11];
    var i: int := 10;
    str[i] := '\0';
    i := i - 1;
    if num == 0 {
      str[i] := '0';
    } else {
      i := StoreDigits(str, i, num);
    }
    text := CString(str[i + 1..]);
    if num == 0 {
      assert str[i + 1..][0] == '\0';
    } else {
      TerminatedDigits(str[i + 1..], num);
      DecimalOfUint32(num);
    }
  }

  /** The digit loop of `terminal_write_uint32`: store the decimal digits of
      `num`, lowest first, backwards from `str[i]`, and return the index just
      before the first digit; the terminator at `str[10]` stays in place. */
  method StoreDigits(str: array<char>, i: int, num: nat) returns (j: int)
    requires str.Length == 11 && i == 9 && str[10] == '\0'
    requires 0 < num < 0x1_0000_0000
    modifies str
    ensures -1 <= j < 9 && str[j + 1..] == Digits(num, 10) + ['\0']
  {
    DecimalOfUint32(num);
    j := i;
    var n: nat := num;
    ghost var stored: string := [];
    while n > 0
      invariant -1 <= j <= 9 && |stored| == 9 - j && |Leading(n)| <= j + 1
      invariant str[j + 1..10] == stored && str[10] == '\0'
      invariant Leading(n) + stored == Digits(num, 10)
    {
      LeadingStep(n);
      var q: nat, d := n / 10, DigitChar(n % 10);
      ghost var earlier := Leading(q);
      Associative(earlier, [d], stored);
      str[j] := d;
      assert str[j..10] == [d] + str[j + 1..10];
      stored := [d] + stored;
      j := j - 1;
      n := q;
    }
    assert str[j + 1..] == str[j + 1..10] + [str[10]];
  }

  /** The digits of `n` still to be produced by the loop: none once it is zero. */
  function Leading(n: nat): string
  {
    if n == 0 then [] else Digits(n, 10)
  }

  lemma LeadingStep(n: nat)
    requires n > 0
    ensures Leading(n) == Leading(n / 10) + [DigitChar(n % 10)]
    ensures 0 <= n / 10 < n && 0 <= n % 10 < 10
  {
  }

  /** A digit buffer read as a C string gives back the digits of `n`. */
  lemma TerminatedDigits(s: string, n: nat)
    requires s == Digits(n, 10) + ['\0']
    ensures CString(s) == Digits(n, 10)
  {
    assert s[..|s| - 1] == Digits(n, 10);
    DigitsInBase(n, 10);
    assert '\0' !in Digits(n, 10) by {
      assert DigitValue('\0') == -1;
    }
    CStringTerminated(s, |s| - 1);
  }

  // ---------------------------------------------------------------------------
  // The console itself

  /** The console's state, updated in place as in the kernel: the display
      memory is a fixed array of cells, and every `outb` the console issues is
      appended to `ports`. */
  class Terminal {
    const buffer: array<Cell>
    var row: nat
    var column: nat
    var color: byte
    var ports: seq<PortWrite>

    ghost predicate Valid()
      reads this
    {
      buffer.Length == Size && row < Height && column < Width
    }

    /** The console's state as a value. */
    ghost function Snapshot(): Screen
      reads this, buffer
    {
      Screen(buffer[..], row, column, color, ports)
    }

    /** `terminal_initialize`: take over the display memory, home the cursor,
        select light grey on black and blank every cell. */
    constructor Initialize(display: array<Cell>)
      requires display.Length == Size
      modifies display
      ensures Valid() && buffer == display
      ensures Snapshot() == Initial([])
    {
      row, column, color := 0, 0, DefaultColor;
      buffer := display;
      ports := [];
      new;
      var y := 0;
      while y < Height
        invariant 0 <= y <= Height
        invariant row == 0 && column == 0 && color == DefaultColor && ports == []
        invariant forall i :: 0 <= i < y * Width ==> buffer[i] == Cell(' ', DefaultColor)
      {
        var x := 0;
        while x < Width
          invariant 0 <= x <= Width
          invariant row == 0 && column == 0 && color == DefaultColor && ports == []
          invariant forall i :: 0 <= i < y * Width + x ==> buffer[i] == Cell(' ', DefaultColor)
        {
          buffer[Index(x, y)] := Cell(' ', color);
          x := x + 1;
        }
        y := y + 1;
      }
      assert buffer[..] == Initial([]).cells;
    }

    /** `terminal_setcolor`. */
    method SetColor(c: byte)
      modifies this
      ensures Snapshot() == old(Snapshot()).(color := c)
    {
      color := c;
    }

    /** `outb`: one write to an I/O port. */
    method Outb(port: uint16, value: byte)
      modifies this
      ensures Snapshot() == old(Snapshot()).(ports := old(ports) + [PortWrite(port, value)])
    {
      ports := ports + [PortWrite(port, value)];
    }

    /** `terminal_setcursor(row, col)`. */
    method SetCursor(r: nat, col: nat)
      modifies this
      ensures Snapshot() == old(Snapshot()).(ports := old(ports) + Cursor.SetCursor(r, col))
    {
      var position := Position(r, col);
      Outb(CrtIndex, CursorLowRegister);
      Outb(CrtData, (position % 256) as byte);
      Outb(CrtIndex, CursorHighRegister);
      Outb(CrtData, (position / 256 % 256) as byte);
    }

    /** `terminal_movecursor(x, y)`. */
    method MoveCursor(x: nat, y: nat)
      modifies this
      ensures Snapshot() == old(Snapshot()).(ports := old(ports) + Cursor.MoveCursor(x, y))
    {
      var pos := Position(y, x);
      Outb(CrtIndex, CursorLowRegister);
      Outb(CrtData, (pos % 256) as byte);
      Outb(CrtIndex, CursorHighRegister);
      Outb(CrtData, (pos / 256 % 256) as byte);
    }

    /** `terminal_putentryat`: store one cell. */
    method PutEntryAt(c: char, cellColor: byte, x: nat, y: nat)
      requires buffer.Length == Size && x < Width && y < Height
      modifies buffer
      ensures buffer[..] == old(buffer[..])[Index(x, y) := Cell(c, cellColor)]
    {
      buffer[Index(x, y)] := Cell(c, cellColor);
    }

    /** `terminal_scroll`. */
    method Scroll()
      requires buffer.Length == Size && row <= Height && column < Width
      modifies this, buffer
      ensures Valid()
      ensures Snapshot() == Scrolled(old(Snapshot()))
    {
      var blank := Cell(' ', color);
      if row >= Height {
        ShiftRowsUp();
        ClearBottomRow(blank);
        row := row - 1;
        assert buffer[..] == old(buffer[..])[Width..] + BlankRow(color);
      }
    }

    /** The copy loop of `terminal_scroll`: each cell of rows 0 to 23 takes the
        cell one row below it; the bottom row is left as it was. */
    method ShiftRowsUp()
      requires buffer.Length == Size
      modifies buffer
      ensures forall i :: 0 <= i < Size - Width ==> buffer[i] == old(buffer[i + Width])
      ensures forall i :: Size - Width <= i < Size ==> buffer[i] == old(buffer[i])
    {
      var y := 0;
      while y < Height - 1
        invariant 0 <= y <= Height - 1
        invariant forall i :: 0 <= i < y * Width ==> buffer[i] == old(buffer[i + Width])
        invariant forall i :: y * Width <= i < Size ==> buffer[i] == old(buffer[i])
      {
        RowStart(y);
        var x := 0;
        while x < Width
          invariant 0 <= x <= Width
          invariant forall i :: 0 <= i < y * Width + x ==> buffer[i] == old(buffer[i + Width])
          invariant forall i :: y * Width + x <= i < Size ==> buffer[i] == old(buffer[i])
        {
          buffer[Index(x, y)] := buffer[Index(x, y + 1)];
          x := x + 1;
        }
        y := y + 1;
      }
    }

    /** The clearing loop of `terminal_scroll`: the bottom row becomes `blank`
        and every other cell is left as it was. */
    method ClearBottomRow(blank: Cell)
      requires buffer.Length == Size
      modifies buffer
      ensures forall i :: 0 <= i < Size - Width ==> buffer[i] == old(buffer[i])
      ensures forall i :: Size - Width <= i < Size ==> buffer[i] == blank
    {
      var x := 0;
      while x < Width
        invariant 0 <= x <= Width
        invariant forall i :: 0 <= i < Size - Width ==> buffer[i] == old(buffer[i])
        invariant forall i :: Size - Width <= i < Size - Width + x ==> buffer[i] == blank
      {
        buffer[Index(x, Height - 1)] := blank;
        x := x + 1;
      }
    }

    /** `terminal_putchar`. */
    method PutChar(c: char)
      requires Valid()
      modifies this, buffer
      ensures Valid()
      ensures Snapshot() == Put(old(Snapshot()), c)
    {
      if c == '\n' {
        row := row + 1;
        column := 0;
        Scroll();
      } else if c == '\r' {
        column := 0;
      } else {
        PutEntryAt(c, color, column, row);
        column := column + 1;
        if column == Width {
          column := 0;
          row := row + 1;
          if row == Height {
            row := 0;
          }
        }
        Scroll();
      }
      MoveCursor(column, row);
    }

    /** `terminal_write(data, size)`. */
    method Write(data: string)
      requires Valid()
      modifies this, buffer
      ensures Valid()
      ensures Snapshot() == Written(old(Snapshot()), data)
    {
      var i := 0;
      while i < |data|
        invariant 0 <= i <= |data|
        invariant Valid()
        invariant Snapshot() == Echoed(old(Snapshot()), data[..i])
      {
        assert data[..i + 1][..i] == data[..i];
        PutChar(data[i]);
        i := i + 1;
      }
      assert data[..i] == data;
      SetCursor(row, column);
    }

    /** `terminal_writestring`: write the C string stored in `data`. */
    method WriteString(data: string)
      requires Valid()
      modifies this, buffer
      ensures Valid()
      ensures Snapshot() == Written(old(Snapshot()), CString(data))
    {
      Write(CString(data));
    }

    /** `terminal_write_hex`: four `terminal_putchar` calls, no final sync. */
    method WriteHex(num: byte)
      requires Valid()
      modifies this, buffer
      ensures Valid()
      ensures Snapshot() == Echoed(old(Snapshot()), HexText(num))
    {
      ghost var t := HexText(num);
      PutChar('0');
      EchoedOne(old(Snapshot()), '0');
      assert Snapshot() == Echoed(old(Snapshot()), t[..1]);
      PutChar('x');
      EchoedSnoc(old(Snapshot()), t[..1], 'x');
      assert Snapshot() == Echoed(old(Snapshot()), t[..2]) by { assert t[..1] + ['x'] == t[..2]; }
      PutChar(HexDigits[num as int / 16]);
      EchoedSnoc(old(Snapshot()), t[..2], t[2]);
      assert Snapshot() == Echoed(old(Snapshot()), t[..3]) by { assert t[..2] + [t[2]] == t[..3]; }
      PutChar(HexDigits[num as int % 16]);
      EchoedSnoc(old(Snapshot()), t[..3], t[3]);
      assert t[..3] + [t[3]] == t;
    }

    /** `terminal_write_uint32`, with the zero case corrected. */
    method WriteUint32(num: nat)
      requires Valid() && num < 0x1_0000_0000
      modifies this, buffer
      ensures Valid()
      ensures Snapshot() == Written(old(Snapshot()), Digits(num, 10))
    {
      var text := FormatUint32(num);
      DigitsInBase(num, 10);
      CStringWhole(text);
      WriteString(text);
    }
  }
}
