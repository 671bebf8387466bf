/** The typed line on the terminal while messages arrive: the sending thread reads keys, the
    receiving thread prints, each call whole, in any order.

    The terminal keeps the lines that have scrolled up and the bottom line with its cursor.
    Backspace, carriage return and erase-in-line act as in ECMA-48 (BS, CR, and EL with
    parameter 2), NUL does nothing; a newline also returns the carriage, since the programs leave output
    processing on. Lines do not wrap. */
module Screen {
  import opened LineEditor
  import opened Options
  import opened Runs

  datatype Terminal = Terminal(above: seq<string>, line: string, col: nat)

  ghost function Blanks(n: nat): string {
    seq(n, _ => ' ')
  }

  ghost function PutChar(t: Terminal, c: char): Terminal {
    if c == NUL then t
    else if c == BS then t.(col := if t.col > 0 then t.col - 1 else 0)
    else if c == '\r' then t.(col := 0)
    else if c == '\n' then Terminal(t.above + [t.line], "", 0)
    else if t.col < |t.line| then t.(line := t.line[t.col := c], col := t.col + 1)
    else t.(line := t.line + Blanks(t.col - |t.line|) + [c], col := t.col + 1)
  }

  const ERASE_LINE := [ESC, '[', '2', 'K']

  ghost function Feed(t: Terminal, bytes: string): Terminal
    decreases |bytes|
  {
    if bytes == "" then t
    else if ERASE_LINE <= bytes then Feed(t.(line := ""), bytes[4..])
    else Feed(PutChar(t, bytes[0]), bytes[1..])
  }

  ghost predicate Printable(c: char) {
    ' ' <= c <= '~'
  }

  ghost predicate AllPrintable(s: string) {
    forall i | 0 <= i < |s| :: Printable(s[i])
  }

  /** A message as the clients format it: printable lines, each ended. */
  ghost predicate Message(m: string) {
    && (forall i | 0 <= i < |m| :: Printable(m[i]) || m[i] == '\n')
    && (m == "" || m[|m| - 1] == '\n')
  }

  ghost predicate OneLine(m: string) {
    m != "" && m[|m| - 1] == '\n' && AllPrintable(m[..|m| - 1])
  }

  /** The lines of a message that continues a line of which `cur` is there. */
  ghost function Lines(cur: string, m: string): seq<string>
    decreases |m|
  {
    if m == "" then []
    else if m[0] == '\n' then [cur] + Lines("", m[1..])
    else Lines(cur + [m[0]], m[1..])
  }

  /** The bottom line is the prompt and the typed text, the cursor right behind it, and
      nothing but blanks from there on. */
  ghost predicate Shows(t: Terminal, input: string) {
    && t.col == |input| <= |t.line| && t.line[..t.col] == input
    && forall k | t.col <= k < |t.line| :: t.line[k] == ' '
  }

  lemma {:induction false} FeedAppends(t: Terminal, first: string, second: string)
    requires ESC !in first
    ensures Feed(t, first + second) == Feed(Feed(t, first), second)
    decreases |first|
  {
    if first == "" {
      assert first + second == second;
    } else {
      assert (first + second)[0] == first[0] && (first + second)[1..] == first[1..] + second;
      FeedAppends(PutChar(t, first[0]), first[1..], second);
    }
  }

  lemma {:induction false} FeedText(t: Terminal, s: string)
    requires AllPrintable(s) && t.col == |t.line|
    ensures Feed(t, s) == Terminal(t.above, t.line + s, |t.line| + |s|)
    decreases |s|
  {
    if s == "" {
      assert t.line + s == t.line;
    } else {
      var u := PutChar(t, s[0]);
      assert u.line == t.line + [s[0]];
      FeedText(u, s[1..]);
      assert u.line + s[1..] == t.line + s;
    }
  }

  lemma {:induction false} FeedMessage(t: Terminal, m: string)
    requires Message(m) && m != "" && t.col == |t.line|
    ensures Feed(t, m) == Terminal(t.above + Lines(t.line, m), "", 0)
    decreases |m|
  {
    var u := PutChar(t, m[0]);
    if |m| == 1 {
      assert m[1..] == "";
      assert Lines(t.line, m) == [t.line];
    } else {
      assert u.line == if m[0] == '\n' then "" else t.line + [m[0]];
      FeedMessage(u, m[1..]);
      if m[0] == '\n' {
        assert t.above + [t.line] + Lines("", m[1..]) == t.above + ([t.line] + Lines("", m[1..]));
      }
    }
  }

  lemma {:induction false} PrintableIsCString(s: string)
    requires AllPrintable(s)
    ensures CString(s) == s
    decreases |s|
  {
    if s == "" {
    } else {
      PrintableIsCString(s[1..]);
    }
  }

  lemma ClearLineClears(t: Terminal, rest: string)
    ensures Feed(t, CLEAR_LINE + rest) == Feed(Terminal(t.above, "", 0), rest)
  {
    var erased := t.(line := "");
    assert CLEAR_LINE + rest == ERASE_LINE + (['\r'] + rest);
    assert Feed(t, CLEAR_LINE + rest) == Feed(erased, ['\r'] + rest);
    assert ['\r'][1..] == "" && Feed(erased, ['\r']) == Terminal(t.above, "", 0);
    FeedAppends(erased, ['\r'], rest);
  }

  lemma MessageGoesAbove(above: seq<string>, msg: string)
    requires Message(msg)
    ensures Feed(Terminal(above, "", 0), msg) == Terminal(above + Lines("", msg), "", 0)
  {
    if msg == "" {
      assert above + Lines("", msg) == above;
    } else {
      FeedMessage(Terminal(above, "", 0), msg);
    }
  }

  /** A redraw puts the whole message above and the prompt and typed text back at the bottom,
      whatever the bottom line and the cursor were. */
  lemma RedrawRestores(t: Terminal, prompt: string, text: string, msg: string)
    requires AllPrintable(prompt) && AllPrintable(text) && Message(msg)
    ensures Feed(t, Redraw(prompt, text, msg)) ==
            Terminal(t.above + Lines("", msg), prompt + text, |prompt + text|)
  {
    PrintableIsCString(text);
    var clear, input := Terminal(t.above, "", 0), prompt + text;
    assert Redraw(prompt, text, msg) == CLEAR_LINE + (msg + input);
    calc {
      Feed(t, CLEAR_LINE + (msg + input));
      { ClearLineClears(t, msg + input); }
      Feed(clear, msg + input);
      { FeedAppends(clear, msg, input); }
      Feed(Feed(clear, msg), input);
      { MessageGoesAbove(t.above, msg); }
      Feed(Terminal(t.above + Lines("", msg), "", 0), input);
      { FeedText(Terminal(t.above + Lines("", msg), "", 0), input); assert "" + input == input; }
      Terminal(t.above + Lines("", msg), input, |input|);
    }
  }

  lemma TrailingNulIsIgnored(t: Terminal, tail: string)
    requires ESC !in tail
    ensures Feed(t, CLEAR_LINE + tail + [NUL]) == Feed(t, CLEAR_LINE + tail)
  {
    var clear := Terminal(t.above, "", 0);
    assert CLEAR_LINE + tail + [NUL] == CLEAR_LINE + (tail + [NUL]);
    ClearLineClears(t, tail);
    ClearLineClears(t, tail + [NUL]);
    FeedAppends(clear, tail, [NUL]);
    var u := Feed(clear, tail);
    assert [NUL][1..] == "" && Feed(u, [NUL]) == u;
  }

  lemma RedrawThenNul(t: Terminal, prompt: string, text: string, msg: string)
    requires AllPrintable(prompt) && AllPrintable(text) && Message(msg)
    ensures Feed(t, Redraw(prompt, text, msg) + [NUL]) == Feed(t, Redraw(prompt, text, msg))
  {
    PrintableIsCString(text);
    var tail := msg + (prompt + text);
    assert Redraw(prompt, text, msg) == CLEAR_LINE + tail;
    TrailingNulIsIgnored(t, tail);
  }

  lemma DropLast(a: string, b: string, c: string, d: string)
    requires d != ""
    ensures var all := a + b + c + d; all[..|all| - 1] == a + b + c + d[..|d| - 1]
  {
  }

  lemma OverfullIsShorter(prompt: string, text: string, msg: string)
    requires AllPrintable(text) && text != ""
    ensures WithoutLast(Redraw(prompt, text, msg)) == Redraw(prompt, text[..|text| - 1], msg) + [NUL]
  {
    PrintableIsCString(text);
    PrintableIsCString(text[..|text| - 1]);
    DropLast(CLEAR_LINE, msg, prompt, text);
  }

  /** A redraw one character too long shows the typed text without its last character. */
  lemma OverfullLosesLast(t: Terminal, prompt: string, text: string, msg: string)
    requires AllPrintable(prompt) && AllPrintable(text) && Message(msg) && text != ""
    ensures var shown := prompt + text[..|text| - 1];
            Feed(t, WithoutLast(Redraw(prompt, text, msg))) == Terminal(t.above + Lines("", msg), shown, |shown|)
  {
    var short := text[..|text| - 1];
    OverfullIsShorter(prompt, text, msg);
    RedrawThenNul(t, prompt, short, msg);
    RedrawRestores(t, prompt, short, msg);
  }

  /** The print stays inside its array, and after it the terminal shows what is being typed. */
  ghost predicate Restores(t: Terminal, prompt: string, text: string, msg: string, stack: string)
    requires |stack| == 2 * MAXLINE
  {
    && Written(prompt, text, msg, stack).Some?
    && Shows(Feed(t, Written(prompt, text, msg, stack).value), prompt + text)
  }

  /** Characters that do not move the cursor back or to another line. */
  ghost predicate Plain(s: string) {
    forall i | 0 <= i < |s| :: Printable(s[i]) || s[i] == NUL
  }

  lemma {:induction false} FeedPlain(t: Terminal, s: string)
    requires Plain(s)
    ensures Feed(t, s).col >= t.col
    decreases |s|
  {
    if s == "" {
    } else {
      FeedPlain(PutChar(t, s[0]), s[1..]);
    }
  }

  lemma LastOfTail(head: string, tail: string)
    requires tail != ""
    ensures WithoutLast(head + tail) == head + WithoutLast(tail)
    ensures Plain(tail) ==> Plain(WithoutLast(tail))
  {
  }

  lemma OverlongBody(msg: string, stack: string) returns (behind: string)
    requires |msg| >= MAXLINE
    requires |stack| == 2 * MAXLINE && Plain(stack) && |CLEAR_LINE| + |msg| <= 2 * MAXLINE
    ensures Body(msg, stack) == msg[..MAXLINE - 1] + behind && Plain(behind) && behind != ""
  {
    behind := [NUL] + stack[|CLEAR_LINE| + MAXLINE..|CLEAR_LINE| + |msg|];
  }

  lemma Regroup(a: string, b: string, c: string, d: string, e: string)
    ensures a + (b + c) + d + e == (a + b) + (c + d + e)
  {
  }

  lemma OverlongWritten(prompt: string, text: string, msg: string, stack: string) returns (rest: string)
    requires AllPrintable(prompt) && AllPrintable(text) && |msg| >= MAXLINE
    requires |stack| == 2 * MAXLINE && Plain(stack) && Written(prompt, text, msg, stack).Some?
    ensures Written(prompt, text, msg, stack) == Some(CLEAR_LINE + msg[..MAXLINE - 1] + rest) && Plain(rest)
  {
    PrintableIsCString(text);
    var behind := OverlongBody(msg, stack);
    var front, tail := CLEAR_LINE + msg[..MAXLINE - 1], behind + prompt + text;
    Regroup(CLEAR_LINE, msg[..MAXLINE - 1], behind, prompt, text);
    LastOfTail(front, tail);
    rest := if |front + tail| == 2 * MAXLINE && prompt + text != "" then WithoutLast(tail) else tail;
  }

  /** Behind a message too long for its part of the array its newline is lost, and the input
      goes where the message ends. */
  lemma OverlongRunsOn(t: Terminal, prompt: string, text: string, msg: string, stack: string)
    requires AllPrintable(prompt) && AllPrintable(text) && OneLine(msg) && |msg| >= MAXLINE
    requires |stack| == 2 * MAXLINE && Plain(stack) && Written(prompt, text, msg, stack).Some?
    ensures !Restores(t, prompt, text, msg, stack)
  {
    var rest := OverlongWritten(prompt, text, msg, stack);
    FarRight(t, msg[..MAXLINE - 1], rest);
    PrintableIsCString(text);
  }

  lemma FarRight(t: Terminal, head: string, rest: string)
    requires AllPrintable(head) && Plain(rest)
    ensures Feed(t, CLEAR_LINE + head + rest).col >= |head|
  {
    var clear := Terminal(t.above, "", 0);
    assert CLEAR_LINE + head + rest == CLEAR_LINE + (head + rest);
    ClearLineClears(t, head + rest);
    FeedAppends(clear, head, rest);
    FeedText(clear, head);
    FeedPlain(Feed(clear, head), rest);
  }

  /** Of all prints, exactly those whose redraw fits the array, with room for the closing NUL,
      bring the typed text back; if messages too long for their part of the array are one line,
      and what that held before moves no cursor. */
  lemma RestoresExactlyWhenItFits(t: Terminal, prompt: string, text: string, msg: string, stack: string)
    requires AllPrintable(prompt) && AllPrintable(text) && Message(msg)
    requires |prompt| < PROMPT_SIZE
    requires |stack| == 2 * MAXLINE && (|msg| >= MAXLINE ==> OneLine(msg) && Plain(stack))
    ensures Restores(t, prompt, text, msg, stack) <==> Fits(prompt, text, msg)
  {
    if Fits(prompt, text, msg) {
      RedrawRestores(t, prompt, text, msg);
    } else if Written(prompt, text, msg, stack).None? {
    } else if |msg| < MAXLINE {
      PrintableIsCString(text);
      OverfullLosesLast(t, prompt, text, msg);
    } else {
      OverlongRunsOn(t, prompt, text, msg, stack);
    }
  }

  /** A redraw that fits is what is written, whatever the array held before. */
  lemma FittingIsWritten(prompt: string, text: string, msg: string, stack: string)
    requires Fits(prompt, text, msg) && |stack| == 2 * MAXLINE
    ensures Written(prompt, text, msg, stack) == Some(Redraw(prompt, text, msg))
  {
  }

  // ---------------------------------------------------------------- the two threads

  /** `stack` is what the array of a print holds before; `beyond` is what a print that leaves its
      array writes. */
  datatype Call = KeyPress(k: Key) | Print(msg: string, stack: string, beyond: string) | Reset

  /** `stale` from a reset until the next print, `spoiled` from a print that is not clean until
      the next that is. */
  datatype State = State(line: Line, stale: bool, spoiled: bool, term: Terminal)

  /** The typing thread never reads a key between its reset and its print. Keys are printable
      or among those the editor interprets. Anything can be printed. */
  ghost predicate Enabled(prompt: string, s: State, a: Call) {
    match a
    case KeyPress(k) => !s.stale && (Ends(k) || Erases(k) || Printable(k.c))
    case Print(_, stack, _) => |stack| == 2 * MAXLINE
    case Reset => true
  }

  /** Printable lines whose redraw fits the array. */
  ghost predicate Clean(prompt: string, s: State, a: Call) {
    a.Print? ==> Message(a.msg) && Fits(prompt, s.line.text, a.msg)
  }

  ghost function Do(prompt: string, s: State, a: Call): State
    requires Enabled(prompt, s, a)
  {
    match a
    case KeyPress(k) => s.(line := Press(s.line, k), term := Feed(s.term, Echo(s.line, k)))
    case Print(m, stack, beyond) =>
      var out := match Written(prompt, s.line.text, m, stack) case Some(bytes) => bytes case None => beyond;
      State(s.line, false, !Clean(prompt, s, a), Feed(s.term, out))
    case Reset => s.(line := Line("", false), stale := true)
  }

  ghost function Next(prompt: string, s: State, a: Call): State {
    if Enabled(prompt, s, a) then Do(prompt, s, a) else s
  }

  ghost function Threads(prompt: string): System<State, Call> {
    System((s, a) => Enabled(prompt, s, a), (s, a) => Next(prompt, s, a))
  }

  ghost predicate Inv(prompt: string, s: State) {
    && AllPrintable(prompt) && AllPrintable(s.line.text)
    && (!s.stale && !s.spoiled ==> Shows(s.term, prompt + s.line.text))
  }

  /** A key press, whatever is at the bottom, leaves the lines above alone. */
  lemma EchoStaysAtBottom(t: Terminal, line: Line, k: Key)
    requires Ends(k) || Erases(k) || Printable(k.c)
    ensures Feed(t, Echo(line, k)).above == t.above
    ensures Echo(line, k) == [BS, ' ', BS] ==>
              Feed(t, Echo(line, k)) == PutChar(PutChar(PutChar(t, BS), ' '), BS)
    ensures |Echo(line, k)| == 1 ==> Feed(t, Echo(line, k)) == PutChar(t, k.c)
  {
    var e := Echo(line, k);
    if e == [BS, ' ', BS] {
      assert e[1..] == [' ', BS] && e[1..][1..] == [BS] && e[1..][1..][1..] == "";
      var t1 := PutChar(t, BS);
      var t2 := PutChar(t1, ' ');
      assert Feed(t, e) == Feed(t1, e[1..]) == Feed(t2, e[1..][1..]) == PutChar(t2, BS);
    } else if e != "" {
      assert e == [k.c] && e[1..] == "";
    }
  }

  lemma KeyKeepsShowing(prompt: string, s: State, k: Key)
    requires Inv(prompt, s) && Enabled(prompt, s, KeyPress(k))
    ensures Inv(prompt, Do(prompt, s, KeyPress(k)))
    ensures Do(prompt, s, KeyPress(k)).term.above == s.term.above
  {
    var e := Echo(s.line, k);
    var t := Do(prompt, s, KeyPress(k));
    EchoStaysAtBottom(s.term, s.line, k);
    if e == [BS, ' ', BS] {
      assert prompt + t.line.text == (prompt + s.line.text)[..|prompt + s.line.text| - 1];
    } else if e != "" {
      assert e == [k.c];
      assert prompt + t.line.text == (prompt + s.line.text) + [k.c];
    }
  }

  /** The lines the printed messages of a run consist of, in order. */
  ghost function Printed(run: seq<Call>): seq<string>
    decreases |run|
  {
    if run == [] then [] else LinesOf(run[0]) + Printed(run[1..])
  }

  /** The edited line if nothing is ever printed. */
  ghost function TypedAlone(line: Line, run: seq<Call>): Line
    decreases |run|
  {
    if run == [] then line else TypedAlone(Edited(line, run[0]), run[1..])
  }

  ghost function Edited(line: Line, a: Call): Line {
    match a
    case KeyPress(k) => Press(line, k)
    case Print(_, _, _) => line
    case Reset => Line("", false)
  }

  ghost function LinesOf(a: Call): seq<string> {
    if a.Print? then Lines("", a.msg) else []
  }

  lemma StepKeepsShowing(prompt: string, s: State, a: Call)
    requires Inv(prompt, s) && Enabled(prompt, s, a)
    ensures Inv(prompt, Do(prompt, s, a))
    ensures Clean(prompt, s, a) ==> Do(prompt, s, a).term.above == s.term.above + LinesOf(a)
  {
    match a {
      case KeyPress(k) => KeyKeepsShowing(prompt, s, k);
      case Print(m, stack, _) =>
        if Clean(prompt, s, a) {
          FittingIsWritten(prompt, s.line.text, m, stack);
          RedrawRestores(s.term, prompt, s.line.text, m);
        }
      case Reset =>
    }
  }

  lemma RunKeepsShowing(prompt: string, s: State, run: seq<Call>)
    requires Inv(prompt, s) && Legal(Threads(prompt), s, run)
    ensures Inv(prompt, After(Threads(prompt), s, run))
  {
    forall s, a | Inv(prompt, s) && Enabled(prompt, s, a) ensures Inv(prompt, Next(prompt, s, a)) {
      StepKeepsShowing(prompt, s, a);
    }
    RunKeeps(Threads(prompt), s => Inv(prompt, s), s, run);
  }

  lemma {:induction false} RunEdits(prompt: string, s: State, run: seq<Call>)
    requires Legal(Threads(prompt), s, run)
    ensures After(Threads(prompt), s, run).line == TypedAlone(s.line, run)
    decreases |run|
  {
    if run == [] {
    } else {
      assert Next(prompt, s, run[0]).line == Edited(s.line, run[0]);
      RunEdits(prompt, Next(prompt, s, run[0]), run[1..]);
    }
  }

  /** Every print of the run is clean. */
  ghost predicate AllClean(prompt: string, s: State, run: seq<Call>) {
    Throughout(Threads(prompt), (s, a) => Clean(prompt, s, a), s, run)
  }

  lemma RunPrints(prompt: string, s: State, run: seq<Call>)
    requires Inv(prompt, s) && Legal(Threads(prompt), s, run) && AllClean(prompt, s, run)
    ensures After(Threads(prompt), s, run).term.above == s.term.above + Printed(run)
  {
    var clean, lines := (s, a) => Clean(prompt, s, a), (s: State, a: Call) => LinesOf(a);
    forall s, a | Inv(prompt, s) && Enabled(prompt, s, a) && clean(s, a)
      ensures Inv(prompt, Next(prompt, s, a)) && Next(prompt, s, a).term.above == s.term.above + LinesOf(a)
    {
      StepKeepsShowing(prompt, s, a);
    }
    RunAppends(Threads(prompt), s => Inv(prompt, s), clean, lines, (s: State) => s.term.above, s, run);
    PrintedIsOutput(prompt, lines, s, run);
  }

  lemma {:induction false} PrintedIsOutput(prompt: string, out: (State, Call) -> seq<string>, s: State, run: seq<Call>)
    requires forall s, a :: out(s, a) == LinesOf(a)
    ensures Output(Threads(prompt), out, s, run) == Printed(run)
    decreases |run|
  {
    if run == [] {
    } else {
      PrintedIsOutput(prompt, out, Threads(prompt).next(s, run[0]), run[1..]);
    }
  }

  /** Peers never interrupt what is being typed, and typing never garbles what peers sent.
      After any mix of key presses, resets and prints in which the last reset has been followed
      by a print, and the latest print is clean, the bottom line shows exactly the prompt and
      what was typed, as if nothing had been printed, whatever earlier prints did to it. And if
      all prints are clean, every message line stands whole and in order above it. */
  lemma PeersNeverInterrupt(prompt: string, s: State, run: seq<Call>)
    requires AllPrintable(prompt) && AllPrintable(s.line.text) && (s.stale || s.spoiled)
    requires Legal(Threads(prompt), s, run)
    ensures var t := After(Threads(prompt), s, run);
            && (!t.stale && !t.spoiled ==> Shows(t.term, prompt + TypedAlone(s.line, run).text))
            && (AllClean(prompt, s, run) ==> t.term.above == s.term.above + Printed(run))
  {
    RunKeepsShowing(prompt, s, run);
    RunEdits(prompt, s, run);
    if AllClean(prompt, s, run) {
      RunPrints(prompt, s, run);
    }
  }

  ghost function KeysOf(run: seq<Call>): seq<Key>
    decreases |run|
  {
    if run == [] then [] else (if run[0].KeyPress? then [run[0].k] else []) + KeysOf(run[1..])
  }

  /** One line of input, as the sending thread reads it, whatever is printed meanwhile: from a
      reset to the key that makes the line ready, the line is that of reading the keys alone. */
  lemma {:induction false} WholeLineIsTyped(line: Line, run: seq<Call>)
    requires !line.ready && Reset !in run
    requires forall n | 0 <= n < |KeysOf(run)| :: !Typed(line, KeysOf(run)[..n]).ready
    ensures TypedAlone(line, run) == Typed(line, KeysOf(run))
    decreases |run|
  {
    if run == [] {
    } else {
      var keys, rest := KeysOf(run), KeysOf(run[1..]);
      if run[0].Print? {
        assert keys == rest;
        WholeLineIsTyped(line, run[1..]);
      } else {
        var next := Press(line, run[0].k);
        assert keys[1..] == rest;
        if next.ready {
          if rest != [] {
            assert keys[..1][1..] == [] && Typed(line, keys[..1]) == next;
          }
          NoMoreKeys(next, run[1..]);
        } else {
          forall n | 0 <= n < |rest| ensures !Typed(next, rest[..n]).ready {
            assert keys[..n + 1][1..] == rest[..n];
            assert !Typed(line, keys[..n + 1]).ready;
          }
          WholeLineIsTyped(next, run[1..]);
        }
      }
    }
  }

  lemma {:induction false} NoMoreKeys(line: Line, run: seq<Call>)
    requires KeysOf(run) == [] && Reset !in run
    ensures TypedAlone(line, run) == line
    decreases |run|
  {
    if run == [] {
    } else {
      NoMoreKeys(line, run[1..]);
    }
  }

  // ---------------------------------------------------------------- a line of input on the screen

  lemma {:induction false} ResetForgets(line: Line, before: seq<Call>, after: seq<Call>)
    ensures TypedAlone(line, before + [Reset] + after) == TypedAlone(Line("", false), after)
    decreases |before|
  {
    var run := before + [Reset] + after;
    if before == [] {
      assert run[0] == Reset && run[1..] == after;
    } else {
      assert run[0] == before[0] && run[1..] == before[1..] + [Reset] + after;
      ResetForgets(Edited(line, before[0]), before[1..], after);
    }
  }

  ghost predicate OnlyKeys(keys: seq<Call>) {
    forall k | 0 <= k < |keys| :: keys[k].KeyPress?
  }

  lemma {:induction false} KeysSpoilNothing(prompt: string, s: State, keys: seq<Call>)
    requires Legal(Threads(prompt), s, keys) && OnlyKeys(keys)
    ensures After(Threads(prompt), s, keys).stale == s.stale
    ensures After(Threads(prompt), s, keys).spoiled == s.spoiled
    decreases |keys|
  {
    if keys == [] {
    } else {
      assert keys[0].KeyPress?;
      KeysSpoilNothing(prompt, Next(prompt, s, keys[0]), keys[1..]);
    }
  }

  /** The latest print decides: if it is of printable lines and fits, then from it on, as long as
      only keys are pressed, the line shows, whatever was there before. */
  lemma LatestPrintDecides(prompt: string, s: State, front: seq<Call>, p: Call, keys: seq<Call>)
    requires AllPrintable(prompt) && AllPrintable(s.line.text) && (s.stale || s.spoiled)
    requires Legal(Threads(prompt), s, front + ([p] + keys)) && OnlyKeys(keys)
    requires p.Print? && Message(p.msg) && Fits(prompt, TypedAlone(s.line, front).text, p.msg)
    ensures var run := front + ([p] + keys);
            Shows(After(Threads(prompt), s, run).term, prompt + TypedAlone(s.line, run).text)
  {
    RunsCompose(Threads(prompt), s, front, [p] + keys);
    var u := After(Threads(prompt), s, front);
    RunEdits(prompt, s, front);
    assert ([p] + keys)[1..] == keys;
    KeysSpoilNothing(prompt, Next(prompt, u, p), keys);
    PeersNeverInterrupt(prompt, s, front + ([p] + keys));
  }

  lemma {:induction false} OrdinaryKeysCloseNothing(w: string, n: nat)
    requires Ordinary(w) && n <= |w| < MAXLINE
    ensures !Typed(Line("", false), Keys(w)[..n]).ready
  {
    assert Keys(w)[..n] == Keys(w[..n]);
    OrdinaryKeysPush(Line("", false), w[..n]);
  }

  /** So a text typed since the last reset shows behind the prompt, with prints of any kind in
      between and a clean one last. */
  lemma TypedTextShows(
      prompt: string, s: State, before: seq<Call>, calls: seq<Call>, p: Call, keys: seq<Call>, w: string)
    requires AllPrintable(prompt) && AllPrintable(s.line.text) && (s.stale || s.spoiled)
    requires Reset !in calls && OnlyKeys(keys) && KeysOf(calls + ([p] + keys)) == Keys(w)
    requires Ordinary(w) && |w| < MAXLINE
    requires var front := before + [Reset] + calls;
             && Legal(Threads(prompt), s, front + ([p] + keys))
             && p.Print? && Message(p.msg) && Fits(prompt, TypedAlone(s.line, front).text, p.msg)
    ensures Shows(After(Threads(prompt), s, before + [Reset] + calls + ([p] + keys)).term, prompt + w)
  {
    var front, later := before + [Reset] + calls, calls + ([p] + keys);
    LatestPrintDecides(prompt, s, front, p, keys);
    assert front + ([p] + keys) == before + [Reset] + later;
    ResetForgets(s.line, before, later);
    forall n | 0 <= n < |w| ensures !Typed(Line("", false), Keys(w)[..n]).ready {
      OrdinaryKeysCloseNothing(w, n);
    }
    assert Reset !in later;
    WholeLineIsTyped(Line("", false), later);
    OrdinaryKeysPush(Line("", false), w);
    assert "" + w == w;
  }
}
