/** The kernel shell: print a prompt, collect one command line from the
    keyboard into a bounded buffer while echoing it, and dispatch the command
    by exact `kstrcmp` match against the known commands. */
module Shell {
  import opened Base
  import opened Console
  import opened Keyboard
  import opened KernelFunctions

  /** `MAX_COMMAND_LENGTH`: the size of the command buffer, terminator
      included, so a command holds at most 255 characters. */
  const MaxCommandLength := 256

  const Prompt := "shell> "

  const HelloReply := "\nHello, world!\n"
  const ResetReply := "\nExiting shell...\n"
  const BasicReply := "\nStarting basic...\n"
  const UnknownReply := "\nCommand not recognized.\n"

  // ---------------------------------------------------------------------------
  // Collecting a line

  /** The end of line collection: whether a line terminator was read (the
      input may instead run out), the command stored, the scancodes left and
      the shift flag. */
  datatype Line = Line(terminated: bool, command: string, rest: seq<byte>, shift: bool)

  predicate Terminator(c: char)
  {
    c == '\n' || c == '\r'
  }

  /** The inner loop of `shell`, continuing with `command` already stored: a
      line terminator ends the line; a character below space is ignored; any
      other character is stored while there is room for it and the
      terminator, and dropped otherwise. */
  function ReadLine(scancodes: seq<byte>, shift: bool, command: string): (r: Line)
    requires |command| < MaxCommandLength
    ensures command <= r.command && |r.command| < MaxCommandLength
    ensures |r.rest| <= |scancodes| && (r.terminated ==> |r.rest| < |scancodes|)
    decreases |scancodes|
  {
    var k := ReadChar(scancodes, shift);
    ReadCharConsumes(scancodes, shift);
    match k.key
    case None => Line(false, command, k.rest, k.shift)
    case Some(c) =>
      if Terminator(c) then Line(true, command, k.rest, k.shift)
      else if c < ' ' then ReadLine(k.rest, k.shift, command)
      else if |command| < MaxCommandLength - 1 then ReadLine(k.rest, k.shift, command + [c])
      else ReadLine(k.rest, k.shift, command)
  }

  /** Every character `terminal_getchar` hands out for `scancodes`, in order,
      until the scancodes run out. */
  function Keys(scancodes: seq<byte>, shift: bool): seq<char>
    decreases |scancodes|
  {
    var k := ReadChar(scancodes, shift);
    ReadCharConsumes(scancodes, shift);
    if k.key.None? then [] else [k.key.value] + Keys(k.rest, k.shift)
  }

  /** The characters before the first line terminator. */
  function BeforeTerminator(keys: seq<char>): seq<char>
  {
    if keys == [] || Terminator(keys[0]) then [] else [keys[0]] + BeforeTerminator(keys[1..])
  }

  /** The characters from space upward, in order. */
  function Printable(keys: seq<char>): seq<char>
  {
    if keys == [] then []
    else if keys[0] < ' ' then Printable(keys[1..])
    else [keys[0]] + Printable(keys[1..])
  }

  /** The first `n` elements, or all of them when there are fewer. */
  function Take(s: seq<char>, n: nat): seq<char>
  {
    if |s| <= n then s else s[..n]
  }

  predicate HasTerminator(keys: seq<char>)
  {
    exists i :: 0 <= i < |keys| && Terminator(keys[i])
  }

  /** The command after reading the non-terminator `c`: stored when it is
      from space upward and there is room, unchanged otherwise. */
  function Store(command: string, c: char): string
  {
    if c >= ' ' && |command| < MaxCommandLength - 1 then command + [c] else command
  }

  /** The line after one non-terminator key: it goes on from the scancodes
      left, with the key stored or not. */
  lemma LineGoesOn(scancodes: seq<byte>, shift: bool, command: string, c: char, rest: seq<byte>, shift': bool)
    requires |command| < MaxCommandLength && !Terminator(c)
    requires ReadChar(scancodes, shift) == Read(Some(c), rest, shift')
    ensures |rest| < |scancodes|
    ensures ReadLine(scancodes, shift, command) == ReadLine(rest, shift', Store(command, c))
  {
    ReadCharConsumes(scancodes, shift);
  }

  /** The line ends at a terminator key or when the scancodes run out. */
  lemma LineEnds(scancodes: seq<byte>, shift: bool, command: string, key: Option<char>, rest: seq<byte>, shift': bool)
    requires |command| < MaxCommandLength && (key.None? || Terminator(key.value))
    requires ReadChar(scancodes, shift) == Read(key, rest, shift')
    ensures ReadLine(scancodes, shift, command) == Line(key.Some?, command, rest, shift')
  {
  }

  /** Only characters from space upward are ever stored. */
  lemma {:induction false} ReadLinePrintable(scancodes: seq<byte>, shift: bool, command: string)
    requires |command| < MaxCommandLength
    requires forall i :: 0 <= i < |command| ==> command[i] >= ' '
    ensures var r := ReadLine(scancodes, shift, command);
      forall i :: 0 <= i < |r.command| ==> r.command[i] >= ' '
    decreases |scancodes|
  {
    var k := ReadChar(scancodes, shift);
    if k.key.None? || Terminator(k.key.value) {
      LineEnds(scancodes, shift, command, k.key, k.rest, k.shift);
    } else {
      LineGoesOn(scancodes, shift, command, k.key.value, k.rest, k.shift);
      ReadLinePrintable(k.rest, k.shift, Store(command, k.key.value));
    }
  }

  /** One character of input, seen from the keys. */
  lemma KeysStep(scancodes: seq<byte>, shift: bool)
    ensures var k := ReadChar(scancodes, shift);
      && (k.key.None? ==> Keys(scancodes, shift) == [])
      && (k.key.Some? ==>
            |k.rest| < |scancodes| && Keys(scancodes, shift) == [k.key.value] + Keys(k.rest, k.shift))
  {
    ReadCharConsumes(scancodes, shift);
  }

  /** Reading one more non-terminator key, on the key sequence: the command
      it leaves determines the rest of the line the same way. */
  lemma KeyStep(command: string, c: char, more: seq<char>)
    requires |command| < MaxCommandLength && !Terminator(c)
    ensures Take(command + Printable(BeforeTerminator([c] + more)), MaxCommandLength - 1)
      == Take(Store(command, c) + Printable(BeforeTerminator(more)), MaxCommandLength - 1)
    ensures HasTerminator([c] + more) <==> HasTerminator(more)
  {
    var keys := [c] + more;
    assert keys[0] == c && keys[1..] == more;
    var p := Printable(BeforeTerminator(more));
    assert BeforeTerminator(keys) == [c] + BeforeTerminator(more);
    if c >= ' ' {
      assert Printable(BeforeTerminator(keys)) == [c] + p;
      assert command + ([c] + p) == command + [c] + p;
      if |command| == MaxCommandLength - 1 {
        assert (command + [c] + p)[..MaxCommandLength - 1] == command;
        assert (command + p)[..MaxCommandLength - 1] == command;
      }
    }
    if HasTerminator(more) {
      var i :| 0 <= i < |more| && Terminator(more[i]);
      assert Terminator(keys[i + 1]);
    }
    if HasTerminator(keys) {
      var i :| 0 <= i < |keys| && Terminator(keys[i]);
      assert Terminator(more[i - 1]);
    }
  }

  /** The collected command is the first 255 characters from space upward
      typed before the line terminator, after what was already stored; the
      line ends exactly when a terminator is typed. */
  lemma {:induction false} ReadLineKeys(scancodes: seq<byte>, shift: bool, command: string)
    requires |command| < MaxCommandLength
    ensures var keys := Keys(scancodes, shift);
      var r := ReadLine(scancodes, shift, command);
      && r.command == Take(command + Printable(BeforeTerminator(keys)), MaxCommandLength - 1)
      && (r.terminated <==> HasTerminator(keys))
    decreases |scancodes|
  {
    var k := ReadChar(scancodes, shift);
    KeysStep(scancodes, shift);
    if k.key.None? {
      LineEnds(scancodes, shift, command, k.key, k.rest, k.shift);
      assert command + [] == command;
    } else if Terminator(k.key.value) {
      LineEnds(scancodes, shift, command, k.key, k.rest, k.shift);
      var keys := Keys(scancodes, shift);
      assert keys[0] == k.key.value;
      assert command + [] == command;
    } else {
      LineGoesOn(scancodes, shift, command, k.key.value, k.rest, k.shift);
      ReadLineKeys(k.rest, k.shift, Store(command, k.key.value));
      KeyStep(command, k.key.value, Keys(k.rest, k.shift));
    }
  }

  // ---------------------------------------------------------------------------
  // Dispatch

  /** The commands `shell` tells apart. */
  datatype Command = Hello | Reset | Basic | Unknown

  /** The dispatch chain: `kstrcmp` of the command buffer against "hello",
      "reset" and "basic" in turn. */
  function Classify(buffer: string): Command
  {
    if Compare(buffer, "hello") == 0 then Hello
    else if Compare(buffer, "reset") == 0 then Reset
    else if Compare(buffer, "basic") == 0 then Basic
    else Unknown
  }

  /** What `shell` writes for each command. */
  function Reply(c: Command): string
  {
    match c
    case Hello => HelloReply
    case Reset => ResetReply
    case Basic => BasicReply
    case Unknown => UnknownReply
  }

  /** Dispatch is exact matching on the stored C string: each command is
      selected by exactly its own name, and every other line, however close,
      is not recognized. */
  lemma ClassifyExact(buffer: string)
    ensures Classify(buffer) == Hello <==> CString(buffer) == "hello"
    ensures Classify(buffer) == Reset <==> CString(buffer) == "reset"
    ensures Classify(buffer) == Basic <==> CString(buffer) == "basic"
    ensures Classify(buffer) == Unknown <==> CString(buffer) !in {"hello", "reset", "basic"}
  {
    MatchesWord(buffer, "hello");
    MatchesWord(buffer, "reset");
    MatchesWord(buffer, "basic");
  }

  /** `kstrcmp` against a word returns zero exactly when the buffer holds
      that word. */
  lemma MatchesWord(buffer: string, word: string)
    requires '\0' !in word
    ensures Compare(buffer, word) == 0 <==> CString(buffer) == word
  {
    CompareZeroIffEqual(buffer, word);
    CStringWhole(word);
  }

  /** Two buffers holding the same C string are dispatched alike. */
  lemma ClassifyCString(a: string, b: string)
    requires CString(a) == CString(b)
    ensures Classify(a) == Classify(b)
  {
    ClassifyExact(a);
    ClassifyExact(b);
  }

  /** A text with no NUL that is none of the three words is not recognized. */
  lemma Unrecognized(text: string)
    requires '\0' !in text && text != "hello" && text != "reset" && text != "basic"
    ensures Classify(text) == Unknown
  {
    CStringWhole(text);
    ClassifyExact(text);
  }

  /** The greeting advertises 'quit', but no such command exists: "quit", the
      empty line and case variants of the known commands are not recognized. */
  lemma NotRecognized()
    ensures Classify("quit") == Unknown && Classify("") == Unknown
    ensures Classify("Hello") == Unknown && Classify("HELLO") == Unknown && Classify("Reset") == Unknown
  {
    Unrecognized("quit");
    Unrecognized("");
    Unrecognized("Hello");
    Unrecognized("HELLO");
    Unrecognized("Reset");
  }

  // ---------------------------------------------------------------------------
  // One iteration

  /** How an iteration ends: ready for the next prompt, rebooting after
      "reset", or out of input while collecting the line. */
  datatype Outcome = Continue | Reboot | InputExhausted

  function OutcomeOf(line: Line): Outcome
  {
    if !line.terminated then InputExhausted
    else if Classify(line.command) == Reset then Reboot
    else Continue
  }

  /** The console after one iteration that collected `line`: the prompt is
      written, each stored character is echoed as it is stored, and a finished
      line is echoed as a newline and answered with the command's reply. */
  function IterationScreen(s: Screen, line: Line): Screen
    requires OnScreen(s)
  {
    var echoed := Echoed(Written(s, Prompt), line.command);
    if line.terminated then Written(Put(echoed, '\n'), Reply(Classify(line.command)))
    else echoed
  }

  /** What a finished iteration shows is what echoing one text shows: the
      prompt, the stored characters once each and in order, one newline, and
      the reply. */
  lemma IterationText(s: Screen, line: Line)
    requires OnScreen(s) && line.terminated
    ensures Visible(IterationScreen(s, line)) ==
      Visible(Echoed(s, Prompt + line.command + "\n" + Reply(Classify(line.command))))
  {
    var reply := Reply(Classify(line.command));
    var p := Written(s, Prompt);
    var e := Echoed(p, line.command);
    var n := Put(e, '\n');
    WrittenVisible(s, Prompt);
    EchoedVisible(p, Echoed(s, Prompt), line.command);
    EchoedAppend(s, Prompt, line.command);
    var e' := Echoed(s, Prompt + line.command);
    EchoedSnoc(s, Prompt + line.command, '\n');
    EchoedOne(e, '\n');
    EchoedOne(e', '\n');
    EchoedVisible(e, e', "\n");
    WrittenVisible(n, reply);
    EchoedVisible(n, Put(e', '\n'), reply);
    EchoedAppend(s, Prompt + line.command + "\n", reply);
  }

  /** The console after collecting `line`: each stored character echoed as it
      is stored, and a newline for the terminator of a finished line. */
  function LineEchoed(s: Screen, line: Line): Screen
    requires OnScreen(s)
  {
    var echoed := Echoed(s, line.command);
    if line.terminated then Put(echoed, '\n') else echoed
  }

  /** The console after a line is collected on `s` and, if it was finished,
      answered. */
  function Answered(s: Screen, line: Line): Screen
    requires OnScreen(s)
  {
    var collected := LineEchoed(s, line);
    if line.terminated then Written(collected, Reply(Classify(line.command))) else collected
  }

  /** An iteration's console, phase by phase: the prompt, the collected line,
      then the reply to a finished line. */
  lemma IterationPhases(s: Screen, line: Line)
    requires OnScreen(s)
    ensures IterationScreen(s, line) == Answered(Written(s, Prompt), line)
  {
  }

  /** One iteration of the `shell` loop: write the prompt, collect a command
      into a 256-character buffer while echoing it, then compare it with
      `kstrcmp` against the known commands and write the reply. The keyboard
      reads from `scancodes`; when they run out before a line terminator the
      iteration ends there. */
  method Iteration(term: Terminal, kb: Keyboard, scancodes: seq<byte>) returns (outcome: Outcome, rest: seq<byte>)
    requires term.Valid()
    modifies term, term.buffer, kb
    ensures term.Valid()
    ensures var line := ReadLine(scancodes, old(kb.shiftPressed), []);
      && rest == line.rest && kb.shiftPressed == line.shift && outcome == OutcomeOf(line)
      && term.Snapshot() == IterationScreen(old(term.Snapshot()), line)
  {
    ghost var line := ReadLine(scancodes, kb.shiftPressed, []);
    ghost var s := term.Snapshot();
    PromptWhole();
    term.WriteString(Prompt);
    outcome, rest := Respond(term, kb, scancodes);
    IterationPhases(s, line);
  }

  lemma PromptWhole()
    ensures CString(Prompt) == Prompt
  {
    CStringWhole(Prompt);
  }

  /** Everything of an iteration after the prompt: collect the line and, if
      it was finished, answer it. */
  method Respond(term: Terminal, kb: Keyboard, scancodes: seq<byte>) returns (outcome: Outcome, rest: seq<byte>)
    requires term.Valid()
    modifies term, term.buffer, kb
    ensures term.Valid()
    ensures var line := ReadLine(scancodes, old(kb.shiftPressed), []);
      && rest == line.rest && kb.shiftPressed == line.shift && outcome == OutcomeOf(line)
      && term.Snapshot() == Answered(old(term.Snapshot()), line)
  {
    ghost var line := ReadLine(scancodes, kb.shiftPressed, []);
    var command, length, terminated;
    command, length, terminated, rest := CollectLine(term, kb, scancodes);
    if terminated {
      outcome := Answer(term, command, length, line.command);
    } else {
      outcome := InputExhausted;
    }
  }

  /** The end of an iteration of `shell` for a finished line: terminate the
      command in its buffer, then dispatch on it. */
  method Answer(term: Terminal, command: array<char>, length: nat, ghost text: string) returns (outcome: Outcome)
    requires term.Valid() && length < command.Length && command[..length] == text && '\0' !in text
    modifies term, term.buffer, command
    ensures term.Valid()
    ensures outcome == if Classify(text) == Reset then Reboot else Continue
    ensures term.Snapshot() == Written(old(term.Snapshot()), Reply(Classify(text)))
  {
    command[length] := '\0';
    var buffer := command[..];
    assert buffer[..length] == text;
    CStringTerminated(buffer, length);
    CStringWhole(text);
    ClassifyCString(buffer, text);
    outcome := Dispatch(term, buffer);
  }

  /** The line-collection loop of `shell`: read characters into a fresh
      command buffer, echoing each one stored, until a line terminator (echoed
      as a newline) or the end of the scancodes; return the buffer, the number
      of characters stored and whether the line was finished. */
  method CollectLine(term: Terminal, kb: Keyboard, scancodes: seq<byte>)
    returns (command: array<char>, length: nat, terminated: bool, rest: seq<byte>)
    requires term.Valid()
    modifies term, term.buffer, kb
    ensures term.Valid() && fresh(command) && command.Length == MaxCommandLength
    ensures var line := ReadLine(scancodes, old(kb.shiftPressed), []);
      && length < MaxCommandLength && command[..length] == line.command && '\0' !in line.command
      && terminated == line.terminated && rest == line.rest && kb.shiftPressed == line.shift
      && term.Snapshot() == LineEchoed(old(term.Snapshot()), line)
  {
    ghost var line := ReadLine(scancodes, kb.shiftPressed, []);
    ReadLinePrintable(scancodes, kb.shiftPressed, []);
    ghost var start := term.Snapshot();
    command := new char[MaxCommandLength];
    length := 0;
    rest := scancodes;
    ghost var stored: string := [];
    while true
      invariant term.Valid() && fresh(command)
      invariant 0 <= length < MaxCommandLength && stored == command[..length]
      invariant ReadLine(rest, kb.shiftPressed, stored) == line
      invariant term.Snapshot() == Echoed(start, stored)
      decreases |rest|
    {
      ghost var before, shift := rest, kb.shiftPressed;
      var ended;
      length, rest, ended, terminated := CollectKey(term, kb, command, length, rest, start, stored);
      ghost var k := ReadChar(before, shift);
      if ended {
        LineEnds(before, shift, stored, k.key, rest, kb.shiftPressed);
        return;
      }
      LineGoesOn(before, shift, stored, k.key.value, rest, kb.shiftPressed);
      stored := Store(stored, k.key.value);
    }
  }

  /** One pass of the inner loop of `shell`: read a key; a line terminator
      (echoed as a newline) or the end of the scancodes ends the line; a
      character from space upward is stored and echoed while there is room;
      anything else is ignored. */
  method CollectKey(term: Terminal, kb: Keyboard, command: array<char>, length: nat, scancodes: seq<byte>,
                    ghost start: Screen, ghost stored: string)
    returns (length': nat, rest: seq<byte>, ended: bool, terminated: bool)
    requires term.Valid() && OnScreen(start) && command.Length == MaxCommandLength
    requires length < MaxCommandLength && stored == command[..length]
    requires term.Snapshot() == Echoed(start, stored)
    modifies term, term.buffer, kb, command
    ensures term.Valid() && length' < MaxCommandLength
    ensures var k := ReadChar(scancodes, old(kb.shiftPressed));
      && rest == k.rest && kb.shiftPressed == k.shift
      && (ended <==> k.key.None? || Terminator(k.key.value)) && (terminated <==> ended && k.key.Some?)
      && (ended ==> command[..length'] == stored
                    && term.Snapshot() == if k.key.Some? then Put(Echoed(start, stored), '\n') else Echoed(start, stored))
      && (!ended ==> command[..length'] == Store(stored, k.key.value)
                     && term.Snapshot() == Echoed(start, Store(stored, k.key.value)))
  {
    var key;
    key, rest := kb.GetChar(scancodes);
    length' := length;
    if key.None? {
      return length', rest, true, false;
    }
    var c := key.value;
    if c == '\n' || c == '\r' {
      term.PutChar('\n');
      return length', rest, true, true;
    }
    if c < ' ' {
      return length', rest, false, false;
    }
    if length < MaxCommandLength - 1 {
      command[length] := c;
      length' := length + 1;
      assert command[..length'] == stored + [c];
      term.PutChar(c);
      assert command[..length'] == stored + [c];
      EchoedSnoc(start, stored, c);
    }
    ended, terminated := false, false;
  }

  /** Each reply is written whole: none holds a NUL. */
  lemma ReplyWhole(c: Command)
    ensures CString(Reply(c)) == Reply(c)
  {
    match c
    case Hello => CStringWhole(HelloReply);
    case Reset => CStringWhole(ResetReply);
    case Basic => CStringWhole(BasicReply);
    case Unknown => CStringWhole(UnknownReply);
  }

  /** The dispatch chain of `shell`: `kstrcmp` the buffer's contents against
      "hello", "reset" and "basic" in turn and write the matching reply;
      "reset" then reboots. Nothing writes the buffer meanwhile, so its
      contents are passed as a value. */
  method Dispatch(term: Terminal, command: string) returns (outcome: Outcome)
    requires term.Valid()
    modifies term, term.buffer
    ensures term.Valid()
    ensures outcome == if Classify(command) == Reset then Reboot else Continue
    ensures term.Snapshot() == Written(old(term.Snapshot()), Reply(Classify(command)))
  {
    var reply;
    outcome := Continue;
    var r := Kstrcmp(command, "hello");
    if r == 0 {
      reply := HelloReply;
    } else {
      r := Kstrcmp(command, "reset");
      if r == 0 {
        reply := ResetReply;
        outcome := Reboot;
      } else {
        r := Kstrcmp(command, "basic");
        reply := if r == 0 then BasicReply else UnknownReply;
      }
    }
    assert reply == Reply(Classify(command));
    ReplyWhole(Classify(command));
    term.WriteString(reply);
  }

  // ---------------------------------------------------------------------------
  // The whole shell

  // The two longer lines are written as two halves each, so that the verifier
  // can see that neither holds a NUL.
  const Welcome := "\nWelcome to the BSI " + "Operating System, BSI/OS\n"
  const Greeting := "Type 'hello' to see a greeting, " + "'quit' to exit.\n"
  const Spacing := "\n\n\n"

  /** The console after the banner `shell` prints once: the welcome line, the
      kernel size report, the greeting and three blank lines. */
  function BannerScreen(s: Screen, flags: bv32, words: nat): Screen
    requires OnScreen(s)
  {
    Written(Written(KernelSizeScreen(Written(s, Welcome), flags, words), Greeting), Spacing)
  }

  /** The iterations `shell` runs on `scancodes`: one after another as long as
      each ends ready for the next prompt, until one reboots or the input runs
      out; the console at that point and how the last iteration ended. */
  function Session(s: Screen, scancodes: seq<byte>, shift: bool): (Screen, Outcome)
    requires OnScreen(s)
    decreases |scancodes|
  {
    var line := ReadLine(scancodes, shift, []);
    var after := IterationScreen(s, line);
    if OutcomeOf(line) == Continue then Session(after, line.rest, line.shift)
    else (after, OutcomeOf(line))
  }

  /** The session never stops ready for another prompt: it ends with a reboot
      or with the input used up, and an iteration that continues hands the
      session on to another one, which starts with the prompt. */
  lemma {:induction false} SessionEnds(s: Screen, scancodes: seq<byte>, shift: bool)
    requires OnScreen(s)
    ensures var line := ReadLine(scancodes, shift, []);
      && Session(s, scancodes, shift).1 != Continue
      && (OutcomeOf(line) == Continue ==>
            Session(s, scancodes, shift) == Session(IterationScreen(s, line), line.rest, line.shift))
    decreases |scancodes|
  {
    var line := ReadLine(scancodes, shift, []);
    if OutcomeOf(line) == Continue {
      SessionEnds(IterationScreen(s, line), line.rest, line.shift);
    }
  }

  lemma WelcomeWhole()
    ensures CString(Welcome) == Welcome
  {
    CStringWhole(Welcome);
  }

  lemma GreetingWhole()
    ensures CString(Greeting) == Greeting
  {
    CStringWhole(Greeting);
  }

  lemma SpacingWhole()
    ensures CString(Spacing) == Spacing
  {
    CStringWhole(Spacing);
  }

  /** Lines 11-14 of `shell`: the banner printed once before the loop. */
  method Banner(term: Terminal, flags: bv32, words: nat)
    requires term.Valid() && words < 0x4000_0000
    modifies term, term.buffer
    ensures term.Valid()
    ensures term.Snapshot() == BannerScreen(old(term.Snapshot()), flags, words)
  {
    WelcomeWhole();
    GreetingWhole();
    SpacingWhole();
    term.WriteString(Welcome);
    PrintKernelSize(term, flags, words);
    term.WriteString(Greeting);
    term.WriteString(Spacing);
  }

  /** `shell(mbi)`, given `mbi->flags`, the word difference of the linker
      symbols and the scancodes typed: print the banner, then run iterations
      until a command reboots or the scancodes run out. */
  method Start(term: Terminal, kb: Keyboard, flags: bv32, words: nat, scancodes: seq<byte>) returns (outcome: Outcome)
    requires term.Valid() && words < 0x4000_0000
    modifies term, term.buffer, kb
    ensures term.Valid()
    ensures (term.Snapshot(), outcome) ==
      Session(BannerScreen(old(term.Snapshot()), flags, words), scancodes, old(kb.shiftPressed))
  {
    Banner(term, flags, words);
    outcome := Run(term, kb, scancodes);
  }

  /** The `while (1)` loop of `shell`: iterate until an iteration reboots or
      the scancodes run out. */
  method Run(term: Terminal, kb: Keyboard, scancodes: seq<byte>) returns (outcome: Outcome)
    requires term.Valid()
    modifies term, term.buffer, kb
    ensures term.Valid()
    ensures (term.Snapshot(), outcome) == Session(old(term.Snapshot()), scancodes, old(kb.shiftPressed))
  {
    ghost var session := Session(term.Snapshot(), scancodes, kb.shiftPressed);
    SessionEnds(term.Snapshot(), scancodes, kb.shiftPressed);
    var rest := scancodes;
    outcome := Continue;
    while outcome == Continue
      invariant term.Valid()
      invariant outcome == Continue ==> Session(term.Snapshot(), rest, kb.shiftPressed) == session
      invariant outcome != Continue ==> (term.Snapshot(), outcome) == session
      decreases |rest|, if outcome == Continue then 1 else 0
    {
      ghost var before, shift, s := rest, kb.shiftPressed, term.Snapshot();
      SessionEnds(s, before, shift);
      outcome, rest := Iteration(term, kb, rest);
    }
  }

  /** Collection looks at the scancodes only through what the reader returns. */
  lemma SameRead(a: seq<byte>, b: seq<byte>, shift: bool, command: string)
    requires |command| < MaxCommandLength && ReadChar(a, shift) == ReadChar(b, shift)
    ensures ReadLine(a, shift, command) == ReadLine(b, shift, command)
  {
  }

  /** Pressing and releasing an unshifted key whose character is from space
      upward stores that character while there is room. */
  lemma TypedKey(code: byte, rest: seq<byte>, command: string)
    requires code <= 127 && code != LeftShiftPress && code != RightShiftPress
    requires Unshifted[code as int] >= ' ' && |command| < MaxCommandLength - 1
    ensures ReadLine([code, code + 0x80] + rest, false, command) ==
      ReadLine(rest, false, command + [Unshifted[code as int]])
  {
    var c := Unshifted[code as int];
    assert [code, code + 0x80] + rest == [code] + ([code + 0x80] + rest);
    KeyPressReturns(code, [code + 0x80] + rest, false);
    KeyReleaseSkipped(code + 0x80, rest, false);
    LineGoesOn([code, code + 0x80] + rest, false, command, c, [code + 0x80] + rest, false);
    SameRead([code + 0x80] + rest, rest, false, command + [c]);
  }

  lemma HelloKeys()
    ensures Unshifted[0x23] == 'h' && Unshifted[0x12] == 'e' && Unshifted[0x26] == 'l'
    ensures Unshifted[0x18] == 'o' && Unshifted[0x1C] == '\n'
  {
  }

  /** Scan code set 1 for typing "hello" and Enter, each key pressed and then
      released. */
  const HelloTyped: seq<byte> := [0x23, 0xA3, 0x12, 0x92, 0x26, 0xA6, 0x26, 0xA6, 0x18, 0x98, 0x1C, 0x9C]

  /** The second half of typing "hello": "lo" and Enter after "hel". */
  lemma LoTypedLine()
    ensures ReadLine([0x26, 0xA6, 0x18, 0x98, 0x1C, 0x9C], false, "hel") == Line(true, "hello", [0x9C], false)
  {
    var enter: seq<byte> := [0x1C, 0x9C];
    var o := [0x18, 0x98] + enter;
    assert [0x26, 0xA6, 0x18, 0x98, 0x1C, 0x9C] == [0x26, 0xA6] + o;
    HelloKeys();
    TypedKey(0x26, o, "hel");
    assert "hel" + [Unshifted[0x26]] == "hell";
    TypedKey(0x18, enter, "hell");
    assert "hell" + [Unshifted[0x18]] == "hello";
    assert enter == [0x1C] + [0x9C];
    KeyPressReturns(0x1C, [0x9C], false);
    LineEnds(enter, false, "hello", Some('\n'), [0x9C], false);
  }

  /** Typing "hello" and Enter collects the line "hello" and leaves Enter's
      release code unread. */
  lemma HelloTypedLine()
    ensures ReadLine(HelloTyped, false, []) == Line(true, "hello", [0x9C], false)
  {
    var l2: seq<byte> := [0x26, 0xA6, 0x18, 0x98, 0x1C, 0x9C];
    var l1 := [0x26, 0xA6] + l2;
    var e := [0x12, 0x92] + l1;
    assert HelloTyped == [0x23, 0xA3] + e;
    HelloKeys();
    TypedKey(0x23, e, []);
    assert [] + [Unshifted[0x23]] == "h";
    TypedKey(0x12, l1, "h");
    assert "h" + [Unshifted[0x12]] == "he";
    TypedKey(0x26, l2, "he");
    assert "he" + [Unshifted[0x26]] == "hel";
    LoTypedLine();
  }

  /** The line typed as "hello" and Enter is answered with the greeting, and
      the shell goes on to the next prompt. */
  lemma TypingHello()
    ensures var line := ReadLine(HelloTyped, false, []);
      && line.terminated && line.command == "hello"
      && Classify(line.command) == Hello && Reply(Classify(line.command)) == HelloReply
      && OutcomeOf(line) == Continue
  {
    HelloTypedLine();
    HelloWord();
  }

  lemma HelloWord()
    ensures Classify("hello") == Hello
  {
    CStringWhole("hello");
    MatchesWord("hello", "hello");
  }
}
