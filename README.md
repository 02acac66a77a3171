# BSI/OS text console, shell and kernel utilities in Dafny

This project models the text console of a small i386 kernel and the shell that
runs on it. The model is split into seven modules.

- `Base`: bytes, `Option` and NUL-terminated C strings.
- `Numerals`: positional digit strings, shared by `itoa` and
  `terminal_write_uint32`.
- `Cursor`: the VGA CRT controller writes that place the hardware cursor.
- `Console`: the 80×25 text screen.
  - As a value, `Screen` holds the 2000 cells, the row, the column, the colour
    and the log of port writes. `Put`, `Echoed` and `Written` say what
    `terminal_putchar`, a sequence of them and `terminal_write` do to it.
  - As an object, `Terminal` keeps the display buffer in an `array<Cell>` and
    updates it in place, as `tty.c` does. Every public method is proved
    against the value functions: `Snapshot()` after the call is the function
    of `Snapshot()` before it. The helpers `PutEntryAt`, `ShiftRowsUp` and
    `ClearBottomRow` state their effect on the buffer cell by cell.
- `Keyboard`: the two 128-entry scan code set 1 tables and `scancode_to_ascii`
  with its persistent shift flag. `ReadChar` is the keystroke filter of
  `terminal_getchar`, run over a finite sequence of scancodes.
- `KernelFunctions`: `kstrcmp`, `itoa` with its in-place reversal, and
  `print_kernel_size`.
- `Shell`: the `shell` function. It prints the banner, then loops: write the
  prompt, collect a line into a 256-character buffer while echoing it, then
  dispatch with `kstrcmp`.
  - `ReadLine` and `Session` are the value specification of the line and of
    the whole run.
  - `Iteration`, `CollectLine`, `CollectKey`, `Answer`, `Dispatch`, `Run` and
    `Start` are the imperative code proved against them.

A C `char` is a Dafny `char` whose code is the byte's unsigned value. Scancodes,
colours and port values use the `byte` newtype, and port numbers use `uint16`.
The screen colour defaults to light grey on black (0x07).

## Model

| member | source | states |
|---|---|---|
| Base.CString | kernel/arch/i386/tty.c:146-148 | the string `strlen` sees: it holds no NUL, it is a prefix of the buffer, and it ends where the buffer has a NUL |
| Base.CStringWhole | kernel/arch/i386/tty.c:146-148 | a string with no NUL in it is its own C string |
| Base.CStringTerminated | kernel/kernel/shell.c:44-45 | a buffer with `n` non-NUL characters and then a NUL holds exactly those `n` characters as a C string |
| Base.At | kernel/kernel/kernel_functions.c:12 | reading at position `i` of a NUL-terminated buffer gives the character there, and 0 past the end |
| Numerals.DigitChar | kernel/kernel/kernel_functions.c:38 | the digit character chosen for remainder `d` reads back as `d` |
| Numerals.Digits | kernel/arch/i386/tty.c:263-269 | the digits of `n` in a base, most significant first, with no leading zero and "0" for zero; never empty |
| Numerals.LowDigitsFirst | kernel/kernel/kernel_functions.c:36-40 | the digits a divide-by-base loop produces, least significant first; empty for zero |
| Numerals.DigitsInBase | kernel/kernel/kernel_functions.c:36-40 | every character of the digit string is a digit of the base |
| Numerals.ParseDigits | kernel/kernel/kernel_functions.c:36-40 | reading the digit string back in the same base gives the number |
| Numerals.NoLeadingZero | kernel/kernel/kernel_functions.c:36-40 | the digit string of a non-zero number does not start with '0' |
| Numerals.DigitsLength | kernel/arch/i386/tty.c:259 | a number below `base^k` has at most `k` digits |
| Numerals.DecimalOfUint32 | kernel/arch/i386/tty.c:259 | a 32-bit unsigned value has at most ten decimal digits, so `char str[11]` is large enough |
| Numerals.ReverseLowDigitsFirst | kernel/kernel/kernel_functions.c:36-57 | reversing the digits a divide-by-base loop stores, least significant first, gives the digits most significant first |
| Numerals.ReverseIndex | kernel/kernel/kernel_functions.c:48-57 | position `k` of the reverse is position `n-1-k` of the original |
| Numerals.ReverseSnoc | kernel/kernel/kernel_functions.c:43-57 | reversing a string with a character appended puts that character first (the '-' of a negative number) |
| Cursor.Position | kernel/arch/i386/tty.c:60 | `row*80+col`, truncated to 16 bits as the `unsigned short` assignment does, is below 0x10000 |
| Cursor.CursorWritesOnScreen | kernel/arch/i386/tty.c:59-68 | for an on-screen position the four writes are (0x3D4,0x0F), (0x3D5,low byte), (0x3D4,0x0E), (0x3D5,high byte); the two data bytes recombine to `row*80+col` < 2000; and a reader of the writes recovers (row, column) |
| Cursor.SetCursor | kernel/arch/i386/tty.c:59-68 | `terminal_setcursor`: the four writes for `row*80+col` truncated to 16 bits, low byte first |
| Cursor.MoveCursor | kernel/arch/i386/tty.c:70-82 | `terminal_movecursor`: its own `y*80+x` in a `uint16_t`, sent as low byte then high byte |
| Cursor.MoveCursorIsSetCursor | kernel/arch/i386/tty.c:59-82 | although each routine computes its own position, `terminal_movecursor(x, y)` issues exactly the writes of `terminal_setcursor(y, x)` |
| Console.Terminal.Initialize | kernel/arch/i386/tty.c:27-38 | the cursor is at row 0, column 0, the colour is the default, and every one of the 80×25 cells holds a space in that colour (through `Initial`) |
| Console.Terminal.SetColor | kernel/arch/i386/tty.c:40-42 | only the current colour changes |
| Console.Terminal.Outb | kernel/arch/i386/tty.c:44-47 | exactly one (port, value) write is appended to the port log and nothing else changes |
| Console.Terminal.SetCursor | kernel/arch/i386/tty.c:59-68 | the cursor writes for (row, column) are appended to the port log and nothing else changes |
| Console.Terminal.MoveCursor | kernel/arch/i386/tty.c:70-82 | the cursor writes for (x, y) are appended to the port log and nothing else changes |
| Console.Terminal.PutEntryAt | kernel/arch/i386/tty.c:105-108 | exactly the cell at `y*80+x` becomes (c, colour) and every other cell is unchanged |
| Console.Terminal.Scroll | kernel/arch/i386/tty.c:84-102 | the new screen is `Scrolled` of the old one: at row 25, every row moves up one, the bottom row is cleared and the row becomes 24; otherwise nothing changes |
| Console.Terminal.ShiftRowsUp | kernel/arch/i386/tty.c:89-93 | each cell of rows 0..23 takes the value of the cell one row below it, and the bottom row is unchanged |
| Console.Terminal.ClearBottomRow | kernel/arch/i386/tty.c:96-98 | every cell of row 24 becomes the blank cell, and rows 0..23 are unchanged |
| Console.Terminal.PutChar | kernel/arch/i386/tty.c:110-136 | the new screen is `Put(old, c)`, and row < 25, column < 80 hold again |
| Console.Put | kernel/arch/i386/tty.c:110-136 | for every character, the row and column stay on screen, the colour is unchanged, and the cursor writes for the new position are appended |
| Console.Scrolled | kernel/arch/i386/tty.c:84-102 | `terminal_scroll` on a value: at row 25 or more, rows 1..24 move up one, the bottom row becomes blanks in the current colour and the row goes down by one; otherwise the screen is unchanged |
| Console.Echoed | kernel/arch/i386/tty.c:139-142 | the characters of a text put one after another; the screen stays on screen, keeps its colour, and its port log only grows |
| Console.Written | kernel/arch/i386/tty.c:139-148 | `terminal_write`: the text echoed, then the cursor writes for the final position; the screen stays on screen and keeps its colour |
| Console.PutCarriageReturn | kernel/arch/i386/tty.c:119-121 | '\r' sets the column to 0 and leaves the row and every cell unchanged |
| Console.PutNewlineAboveBottom | kernel/arch/i386/tty.c:114-118 | '\n' above the bottom row moves to (row+1, 0) without touching any cell |
| Console.PutNewlineOnBottom | kernel/arch/i386/tty.c:84-102 | '\n' on row 24 scrolls: cell (x, y) takes old cell (x, y+1) for y < 24, the bottom row becomes spaces in the current colour, and the row stays 24 |
| Console.PutOrdinary | kernel/arch/i386/tty.c:122-131 | an ordinary character writes exactly one cell, (c, colour) at the cursor; the column advances, wraps to 0 at 80 with the row advancing, and the row wraps to 0 at 25 without a scroll |
| Console.Terminal.Write | kernel/arch/i386/tty.c:139-144 | the new screen is `Written(old, data)`: each character is put in order, then the cursor writes for the final position |
| Console.Terminal.WriteString | kernel/arch/i386/tty.c:146-148 | writes the C string of `data`, up to its first NUL |
| Console.EchoedAppend | kernel/arch/i386/tty.c:139-142 | putting `a + b` is putting `a` and then `b` |
| Console.EchoedSnoc | kernel/arch/i386/tty.c:139-142 | putting a text and then one more character is putting the longer text |
| Console.EchoedVisible | kernel/arch/i386/tty.c:110-136 | what is shown after putting a text depends only on what was shown before, not on the port log |
| Console.WrittenVisible | kernel/arch/i386/tty.c:139-144 | `terminal_write` shows the same thing as putting the characters one by one; only the port log differs |
| Console.EchoedOrdinary | kernel/arch/i386/tty.c:122-131 | a text without '\n' or '\r' that fits before the end of the screen lands in consecutive cells from the cursor, in the current colour, with every other cell unchanged |
| Console.FullScreenWraps | kernel/arch/i386/tty.c:124-130 | after 2000 ordinary characters from (0, 0) the screen holds them all and the cursor is back at (0, 0); the 2001st character overwrites cell 0 and nothing scrolls |
| Console.Initial | kernel/arch/i386/tty.c:27-38 | the cleared screen: (0, 0), the default colour, and a blank cell everywhere |
| Console.Terminal.WriteHex | kernel/arch/i386/tty.c:176-183 | the screen shows `HexText(num)` put character by character |
| Console.HexText | kernel/arch/i386/tty.c:176-183 | `terminal_write_hex`'s output: '0', 'x', then the entries of "0123456789ABCDEF" for the high and the low nibble |
| Console.HexTextValue | kernel/arch/i386/tty.c:176-183 | the hex text is "0x" followed by two upper-case hex digits whose value is `num` |
| Console.NibbleValues | kernel/arch/i386/tty.c:181-182 | `(num >> 4) & 0xF` is the high nibble and `num & 0xF` is the low nibble |
| Console.HexDigitValue | kernel/arch/i386/tty.c:177 | entry `k` of "0123456789ABCDEF" is the hex digit of value `k` |
| Console.FormatUint32AsWritten | kernel/arch/i386/tty.c:258-273 | the text the code as written prints: empty for 0, and the decimal digits otherwise |
| Console.FormatUint32 | kernel/arch/i386/tty.c:258-273 | with the zero case corrected, the text is the decimal digits of `num`, one to ten characters long, "0" for 0 |
| Console.StoreDigits | kernel/arch/i386/tty.c:266-269 | the backward loop leaves the decimal digits of `num` followed by the terminator at the end of `str[11]` |
| Console.TerminatedDigits | kernel/arch/i386/tty.c:272 | the string at `&str[i+1]` is exactly the digits |
| Console.Terminal.WriteUint32 | kernel/arch/i386/tty.c:258-273 | with the zero case corrected, the screen is the old one with the decimal digits of `num` written |
| Keyboard.TablesShape | kernel/arch/i386/tty.c:150-174 | both tables have 128 entries and entries 96..127 are 0 |
| Keyboard.Decode | kernel/arch/i386/tty.c:185-213 | `scancode_to_ascii` on a value: the character (0 for none) and the shift flag afterwards |
| Keyboard.ReadChar | kernel/arch/i386/tty.c:226-255 | `terminal_getchar` over a finite list of scancodes: the first accepted character of a make code, the scancodes not consumed, and the shift flag; no key when the list runs out |
| Keyboard.DecodeCases | kernel/arch/i386/tty.c:185-213 | 0x2A and 0x36 set shift and give 0; 0xAA and 0xB6 clear shift and give 0; any other code above 127 gives 0 and keeps shift; a code up to 127 gives the shifted or unshifted table entry and keeps shift |
| Keyboard.Keyboard.ScancodeToAscii | kernel/arch/i386/tty.c:185-213 | the character returned and the new shift flag are `Decode(scancode, old shift)` |
| Keyboard.Keyboard.constructor | kernel/arch/i386/tty.c:186 | the shift flag starts cleared |
| Keyboard.BreakIsHighBit | kernel/arch/i386/tty.c:237 | a break code is exactly a code with bit 7 set, that is, one above 127 |
| Keyboard.ReleaseIdempotent | kernel/arch/i386/tty.c:238-242 | decoding a shift release code a second time, as the break branch does, changes nothing more |
| Keyboard.Keyboard.GetChar | kernel/arch/i386/tty.c:226-255 | the key returned, the scancodes left and the new shift flag are `ReadChar(scancodes, old shift)` |
| Keyboard.ReadCharAccepted | kernel/arch/i386/tty.c:246-252 | a returned character is '\n', '\r' or at least ' ' |
| Keyboard.ReadCharFromMakeCode | kernel/arch/i386/tty.c:233-252 | the scancode that caused a return is a make code (bit 7 clear), and the character is its table entry for the shift state at that point |
| Keyboard.ReadCharConsumes | kernel/arch/i386/tty.c:229-253 | the filter consumes a prefix of the scancodes, at least one when it returns a character, and all of them when it finds none |
| Keyboard.ReadCharSkips | kernel/arch/i386/tty.c:229-253 | scancodes that produce no character only change the shift flag before the next ones are read |
| Keyboard.ShiftPressSelectsShifted | kernel/arch/i386/tty.c:195-197 | a shift press followed by an accepted key gives that key's shifted entry, with shift left set |
| KernelFunctions.Compare | kernel/kernel/kernel_functions.c:7-13 | `kstrcmp` on values: the unsigned difference of the two characters where the loop stops |
| KernelFunctions.FirstDiff | kernel/kernel/kernel_functions.c:8-11 | the index where the loop stops: every earlier position holds the same non-NUL character in both strings, and here the first string has a NUL or the two differ |
| KernelFunctions.Kstrcmp | kernel/kernel/kernel_functions.c:7-13 | the pointer-advancing loop returns `Compare`, the unsigned difference at the first differing position |
| KernelFunctions.CompareZeroIffEqual | kernel/kernel/kernel_functions.c:7-13 | the result is 0 exactly when the two NUL-terminated strings are equal |
| KernelFunctions.CompareNegativeIffLess | kernel/include/kernel/kernel_functions.h:2-5 | the result is negative exactly when the first string is lexicographically less than the second, with characters compared unsigned |
| KernelFunctions.CompareAntisymmetric | kernel/kernel/kernel_functions.c:8-12 | `kstrcmp(b, a) == -kstrcmp(a, b)` |
| KernelFunctions.CompareTail | kernel/kernel/kernel_functions.c:8-10 | past a common non-NUL first character, comparing goes on with the tails |
| KernelFunctions.CStringAtFirstNul | kernel/kernel/kernel_functions.c:8 | the C string of a buffer ends at its first NUL |
| KernelFunctions.ItoaText | kernel/kernel/kernel_functions.c:16-60 | `itoa`'s text: "0" for zero, otherwise '-' for a negative number followed by the digits of its magnitude |
| KernelFunctions.ItoaRoundTrip | kernel/include/kernel/kernel_functions.h:8-11 | reading `itoa`'s text back (a '-' and then the digits) gives `num` |
| KernelFunctions.ItoaDigits | kernel/kernel/kernel_functions.c:22-46 | the text is "0" for 0; otherwise it starts with '-' exactly when `num` is negative, and its digits are digits of the base with no leading zero |
| KernelFunctions.ItoaReversed | kernel/kernel/kernel_functions.c:36-57 | `itoa`'s text is the reverse of what the loop stores: the low digits first, then '-' for a negative number |
| KernelFunctions.NextLowDigit | kernel/kernel/kernel_functions.c:37-39 | one step of the digit loop stores the digit of `num % base` and continues with `num / base` |
| KernelFunctions.StoreLowDigits | kernel/kernel/kernel_functions.c:36-40 | the loop writes the low-first digits of `num` at the front of `str`, leaves the rest unchanged, and returns their count |
| KernelFunctions.ReversePrefix | kernel/kernel/kernel_functions.c:48-57 | the two-index swap loop reverses `str[0..i)` in place and leaves every other element, the terminator included, unchanged |
| KernelFunctions.Itoa | kernel/kernel/kernel_functions.c:16-60 | `str` holds `itoa`'s text followed by the terminator, and the rest of the buffer is unchanged |
| KernelFunctions.KernelSizeKB | kernel/kernel/kernel_functions.c:69 | `(d + 1023) / 1024` for the word difference `d` |
| KernelFunctions.KernelSizeScreen | kernel/kernel/kernel_functions.c:65-77 | `print_kernel_size` on a value: flag bit 0 chooses between the size report and the failure message |
| KernelFunctions.KernelSizeCeiling | kernel/kernel/kernel_functions.c:69 | `(d + 1023) / 1024` is the smallest `k` with `d <= 1024*k`: it is 0 exactly when `d` is 0 |
| KernelFunctions.KernelSizeText | kernel/kernel/kernel_functions.c:65-77 | with flag bit 0 set, the screen shows "Kernel size: ", the decimal size and "KB\n"; otherwise it shows "Could not determine memory size.\n" |
| KernelFunctions.PrintKernelSize | kernel/kernel/kernel_functions.c:65-77 | the new screen is `KernelSizeScreen(old, flags, d)` |
| Shell.ReadLine | kernel/kernel/shell.c:23-42 | the collected command extends what was already stored and stays below 256 characters; a finished line consumes at least one scancode |
| Shell.ReadLineKeys | kernel/kernel/shell.c:23-45 | the command is the first up to 255 characters of at least ' ' typed before the first '\n' or '\r', and the line is finished exactly when such a terminator was typed |
| Shell.ReadLinePrintable | kernel/kernel/shell.c:32-35 | no character below ' ' is ever stored |
| Shell.KeysStep | kernel/arch/i386/tty.c:226-255 | the keys typed are the key `terminal_getchar` returns, followed by the keys typed after it |
| Shell.KeyStep | kernel/kernel/shell.c:32-41 | storing one more non-terminator (or dropping it, when it is below ' ' or the buffer is full) agrees with taking the first 255 printable characters |
| Shell.LineGoesOn | kernel/kernel/shell.c:24-41 | after a key that does not end the line, collection goes on from the rest of the scancodes with that key stored |
| Shell.LineEnds | kernel/kernel/shell.c:27-30 | a '\n' or '\r' finishes the line with what was stored; no more input leaves it unfinished |
| Shell.Classify | kernel/kernel/shell.c:48-57 | the branch the if/else chain takes: the first of "hello", "reset" and "basic" that `kstrcmp` reports equal, otherwise unknown |
| Shell.Reply | kernel/kernel/shell.c:49-56 | the string each branch writes |
| Shell.ClassifyExact | kernel/kernel/shell.c:48-57 | the command is `hello`, `reset` or `basic` exactly when the C string in the buffer is that word, and is unknown exactly when it is none of them |
| Shell.MatchesWord | kernel/kernel/shell.c:48 | `kstrcmp(command, word) == 0` exactly when the buffer's C string is that word |
| Shell.ClassifyCString | kernel/kernel/shell.c:45-48 | dispatch depends only on the C string in the buffer |
| Shell.Unrecognized | kernel/kernel/shell.c:55-56 | any NUL-free line other than the three words gets "Command not recognized." |
| Shell.NotRecognized | kernel/kernel/shell.c:13 | "quit" (advertised in the banner), the empty line, and the case variants "Hello", "HELLO" and "Reset" are not recognized |
| Shell.Dispatch | kernel/kernel/shell.c:48-57 | the if/else chain writes the reply of the classified command; "reset" ends in `Reboot` and every other command continues |
| Shell.ReplyWhole | kernel/kernel/shell.c:49-56 | each reply string holds no NUL, so it is written in full |
| Shell.Answer | kernel/kernel/shell.c:44-57 | with the terminator written after the stored characters, the reply to exactly those characters is written |
| Shell.CollectKey | kernel/kernel/shell.c:24-41 | one pass of the collection loop: it reads one key; it ends the line on a terminator, echoing one '\n', or when the input runs out; otherwise it stores and echoes the key when it is at least ' ' and the buffer has room |
| Shell.CollectLine | kernel/kernel/shell.c:19-42 | the buffer holds `ReadLine`'s command, and the screen shows each stored character echoed once, in order, then a single '\n' for a finished line |
| Shell.Respond | kernel/kernel/shell.c:19-57 | after the prompt: the line is collected and, when finished, answered; the outcome is `Reboot` for reset and `Continue` otherwise |
| Shell.LineEchoed | kernel/kernel/shell.c:27-41 | the screen after a line is collected: each stored character echoed, then '\n' for a finished line |
| Shell.Answered | kernel/kernel/shell.c:19-57 | the collected line and, for a finished line, its reply |
| Shell.IterationScreen | kernel/kernel/shell.c:17-57 | the screen after one iteration: prompt, echoed line, and the reply to a finished line |
| Shell.IterationPhases | kernel/kernel/shell.c:17-57 | an iteration's screen is the prompt written, then the collected line, then the reply |
| Shell.Iteration | kernel/kernel/shell.c:16-58 | one pass of the outer loop: the screen is `IterationScreen` of the line read, and the outcome, the scancodes left and the shift flag are those of `ReadLine` |
| Shell.IterationText | kernel/kernel/shell.c:17-57 | a finished iteration shows the prompt, the stored characters, one newline and the reply, as if that one text were put |
| Shell.Session | kernel/kernel/shell.c:16-58 | the outer loop on values: iterations one after another while each continues; the final screen and how the last iteration ended |
| Shell.BannerScreen | kernel/kernel/shell.c:11-14 | the screen after the banner |
| Shell.SessionEnds | kernel/kernel/shell.c:16-17 | after a non-reset dispatch the session goes on with a new iteration, which starts with the prompt; the session ends only with a reboot or when the input runs out |
| Shell.Run | kernel/kernel/shell.c:16-58 | the outer loop runs `Session`: iterations one after another until a reboot or the end of the input |
| Keyboard.KeyPressReturns | kernel/arch/i386/tty.c:233-252 | pressing a key other than shift whose entry is accepted returns that entry at once, consuming just the make code |
| Keyboard.ShiftPressSkipped | kernel/arch/i386/tty.c:195-197 | a shift press is consumed without a return and leaves the shift flag set, whatever it was before |
| Keyboard.KeyReleaseSkipped | kernel/arch/i386/tty.c:236-244 | the release code of a key other than shift is skipped and leaves the shift flag alone |
| Shell.SameRead | kernel/kernel/shell.c:23-42 | line collection sees the scancodes only through what `terminal_getchar` returns |
| Shell.TypedKey | kernel/kernel/shell.c:24-41 | pressing and releasing an unshifted key whose character is printable stores that character while there is room |
| Shell.HelloKeys | kernel/arch/i386/tty.c:151-152 | make codes 0x23, 0x12, 0x26, 0x18 and 0x1C are 'h', 'e', 'l', 'o' and '\n' in the unshifted table |
| Shell.LoTypedLine | kernel/kernel/shell.c:23-42 | after "hel", typing "lo" and Enter finishes the line "hello" with Enter's release code left unread |
| Shell.HelloTypedLine | kernel/kernel/shell.c:23-42 | typing "hello" and Enter, each key pressed and released, finishes the line "hello" with Enter's release code left unread |
| Shell.TypingHello | kernel/kernel/shell.c:23-49 | that line is classified as `hello`, answered with "\nHello, world!\n", and the shell continues |
| Shell.Banner | kernel/kernel/shell.c:11-14 | the welcome line, the kernel size report, the greeting and three newlines are written, in that order |
| Shell.Start | kernel/kernel/shell.c:10-59 | `shell` is the banner followed by the session |

## Left out

- `reboot` (kernel/kernel/sys_commands.c) becomes the `Reboot` outcome, which ends the shell. Its interrupt masking, controller polling and reset pulse are hardware actions with no logic to model.
- `inb`, `outb`, `read_scancode` and `is_data_ready` are inline assembly or port reads.
  - `outb` appends to a log of (port, value) writes.
  - Keyboard input is a finite sequence of scancodes.
  - The busy-wait disappears. When the scancodes run out, `terminal_getchar` returns no key, where the real code would wait for more, and the shell iteration then ends as `InputExhausted`.
- The display is a 2000-cell array, not memory at 0xB8000.
- `vga_entry` and `vga_entry_color` come from `vga.h`, which is not part of this model. A cell is a (character, colour) pair, and the default colour is the constant 0x07.
- The linker symbols `_kernel_start` and `_kernel_end` become one parameter: their difference in 32-bit words, as the pointer arithmetic counts them. It is below 2^30, because a 32-bit address space holds no more words than that.
- The layout of `multiboot_info_t` is left out. Only its `flags` word is a parameter.
- KernelFunctions.Itoa: a negative `num` with a base other than 10, `INT_MIN`, and a base outside 2..36 are excluded by preconditions. In the first case the C code stores digits of negative remainders. The buffer must be large enough for the text and the terminator.
- Console.Terminal.WriteUint32 and KernelFunctions.PrintKernelSize use the corrected zero case described under Findings. Console.FormatUint32AsWritten keeps the code as written.
- KernelFunctions.KernelSizeText, KernelFunctions.KernelSizeScreen, Shell.BannerScreen, Shell.Banner and Shell.Start inherit that corrected zero case. When the word difference is 0 they state "Kernel size: 0KB\n", where the code as written prints "Kernel size: KB\n".
- Shell.Start: the loop ends when the scancodes run out, where the real shell would wait for more input forever.
- The two row overflows are modelled as written. A '\n' on the bottom row scrolls, while a character that wraps past column 79 of the bottom row moves to row 0 without scrolling. Console.FullScreenWraps proves this: once the cursor passes the last cell, the row goes back to 0 and nothing scrolls.
- The keyboard tables are written out in full, one literal per line of the C initializers. Only entries 96..127 are stated as a general property. Individual entries are used where an example needs them (Shell.HelloKeys).
- C `char` is signed. A table entry below 0x80 has the same value as a Dafny `char`, and every entry the tables hold is ASCII, so `c < ' '` and `c >= ' '` mean the same in both.

## Findings

| source | as written | input that shows it | evidently intended | confidence | as-written member | corrected member |
|---|---|---|---|---|---|---|
| kernel/arch/i386/tty.c:262-272 | for `num == 0` the code stores '0' at `str[9]` without decrementing `i`, then writes the string at `&str[i+1]`, which is `&str[10]`, the terminator | `terminal_write_uint32(0)` prints nothing | "0", as for every other value its decimal digits | not executed | Console.FormatUint32AsWritten | Console.FormatUint32 |
