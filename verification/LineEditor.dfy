/** The non-canonical line editor: a NUL-terminated buffer of typed characters, edited in
    place, and the redraw that puts a message above it. */
module LineEditor {
  import opened Options

  const MAXLINE := 4096
  const PROMPT_SIZE := 16

  const NUL := '\U{0000}'
  const EOT := '\U{0004}'
  const BS := '\U{0008}'
  const ESC := '\U{001B}'
  const DEL := '\U{007F}'

  /** What fgetc returns: a character, or EOF. */
  datatype Key = Eof | Ch(c: char)

  ghost predicate Ends(k: Key) {
    k == Eof || k == Ch('\n') || k == Ch(EOT)
  }

  ghost predicate Erases(k: Key) {
    k == Ch(BS) || k == Ch(DEL)
  }

  // ---------------------------------------------------------------- the specification: a capped stack

  datatype Line = Line(text: string, ready: bool)

  /** Ordinary characters are pushed while there is room, the erase keys pop, the end keys
      close a line that is not empty and are ignored on an empty one. */
  ghost function Press(l: Line, k: Key): Line {
    if Ends(k) then Line(l.text, l.ready || l.text != "")
    else if Erases(k) then Line(if l.text == "" then "" else l.text[..|l.text| - 1], l.ready)
    else if |l.text| < MAXLINE - 1 then Line(l.text + [k.c], l.ready)
    else l
  }

  /** What a key press writes to the terminal. */
  ghost function Echo(l: Line, k: Key): string {
    if Ends(k) then ""
    else if Erases(k) then (if l.text == "" then "" else [BS, ' ', BS])
    else if |l.text| < MAXLINE - 1 then [k.c]
    else ""
  }

  /** Key presses are read until the line is ready. */
  ghost function Typed(l: Line, keys: seq<Key>): Line
    decreases |keys|
  {
    if l.ready || keys == [] then l else Typed(Press(l, keys[0]), keys[1..])
  }

  ghost function Echoed(l: Line, keys: seq<Key>): string
    decreases |keys|
  {
    if l.ready || keys == [] then "" else Echo(l, keys[0]) + Echoed(Press(l, keys[0]), keys[1..])
  }

  /** A line that reading closes is never empty and never longer than the buffer allows. */
  lemma {:induction false} ReadyLineHasText(l: Line, keys: seq<Key>)
    requires !l.ready && |l.text| <= MAXLINE - 1
    ensures |Typed(l, keys).text| <= MAXLINE - 1
    ensures Typed(l, keys).ready ==> Typed(l, keys).text != ""
    decreases |keys|
  {
    if keys == [] || Press(l, keys[0]).ready {
    } else {
      ReadyLineHasText(Press(l, keys[0]), keys[1..]);
    }
  }

  ghost function Keys(w: string): seq<Key> {
    seq(|w|, i requires 0 <= i < |w| => Ch(w[i]))
  }

  lemma {:induction false} TypedAppends(l: Line, first: seq<Key>, second: seq<Key>)
    ensures Typed(l, first + second) == Typed(Typed(l, first), second)
    decreases |first|
  {
    if first == [] {
      assert first + second == second;
    } else if l.ready {
    } else {
      TypedAppends(Press(l, first[0]), first[1..], second);
      assert (first + second)[1..] == first[1..] + second;
    }
  }

  lemma {:induction false} OrdinaryKeysPush(l: Line, w: string)
    requires !l.ready && |l.text| + |w| <= MAXLINE - 1
    requires forall i | 0 <= i < |w| :: !Ends(Ch(w[i])) && !Erases(Ch(w[i]))
    ensures Typed(l, Keys(w)) == Line(l.text + w, false)
    decreases |w|
  {
    if w == "" {
      assert l.text + w == l.text;
    } else {
      assert Keys(w)[1..] == Keys(w[1..]);
      OrdinaryKeysPush(Press(l, Ch(w[0])), w[1..]);
      assert l.text + [w[0]] + w[1..] == l.text + w;
    }
  }

  lemma {:induction false} EraseKeysPop(l: Line, erasers: seq<Key>)
    requires !l.ready && |erasers| <= |l.text|
    requires forall i | 0 <= i < |erasers| :: Erases(erasers[i])
    ensures Typed(l, erasers) == Line(l.text[..|l.text| - |erasers|], false)
    decreases |erasers|
  {
    if erasers == [] {
      assert l.text[..|l.text|] == l.text;
    } else {
      EraseKeysPop(Press(l, erasers[0]), erasers[1..]);
    }
  }

  /** Whatever fits is taken back by as many erase keys. */
  lemma TypingIsUndoneByErasing(l: Line, w: string, erasers: seq<Key>)
    requires !l.ready && |l.text| + |w| <= MAXLINE - 1
    requires forall i | 0 <= i < |w| :: !Ends(Ch(w[i])) && !Erases(Ch(w[i]))
    requires |erasers| == |w| && forall i | 0 <= i < |erasers| :: Erases(erasers[i])
    ensures Typed(l, Keys(w) + erasers) == l
  {
    TypedAppends(l, Keys(w), erasers);
    OrdinaryKeysPush(l, w);
    EraseKeysPop(Line(l.text + w, false), erasers);
    assert (l.text + w)[..|l.text|] == l.text;
  }

  /** Characters that are neither an end key nor an erase key. */
  ghost predicate Ordinary(w: string) {
    forall i | 0 <= i < |w| ::
      w[i] != '\n' && w[i] != '\U{0004}' && w[i] != '\U{0008}' && w[i] != '\U{007F}'
  }

  /** Enter, end of transmission, and the end of the input. */
  ghost predicate Closing(k: Key) {
    k == Ch('\n') || k == Ch('\U{0004}') || k == Eof
  }

  /** `keys` begin with an ordinary text that fits, and a closing key. */
  ghost predicate TypesLine(keys: seq<Key>, w: string) {
    && Ordinary(w) && 0 < |w| < MAXLINE
    && |w| < |keys| && keys[..|w|] == Keys(w) && Closing(keys[|w|])
  }

  /** The closing keys complete a line that has text, whatever is typed behind. */
  lemma ClosingKeyCompletes(keys: seq<Key>, w: string)
    requires TypesLine(keys, w)
    ensures Typed(Line("", false), keys) == Line(w, true)
  {
    var typed, rest := keys[..|w|], keys[|w|..];
    assert keys == typed + rest && "" + w == w;
    TypedAppends(Line("", false), typed, rest);
    OrdinaryKeysPush(Line("", false), w);
    assert rest[0] == keys[|w|] && Press(Line(w, false), rest[0]) == Line(w, true);
  }

  /** So what ends up in the field is what was typed, if it fits. */
  lemma LineIsRead(keys: seq<Key>, len: nat)
    requires len > 0
    ensures forall w | TypesLine(keys, w) ::
              && Typed(Line("", false), keys) == Line(w, true)
              && (NUL !in w && |w| < len ==> CString(Field(CString(w), len)) == w)
  {
    forall w | TypesLine(keys, w)
      ensures Typed(Line("", false), keys) == Line(w, true)
      ensures NUL !in w && |w| < len ==> CString(Field(CString(w), len)) == w
    {
      ClosingKeyCompletes(keys, w);
      if NUL !in w {
        NoNulIsCString(w);
      }
    }
  }

  /** On an empty line they, and the erase keys, change nothing; and on a full one no ordinary
      character does. */
  lemma KeysWithoutEffect(l: Line, k: Key)
    requires (l.text == "" && (Closing(k) || k == Ch('\U{0008}') || k == Ch('\U{007F}')))
          || (|l.text| == 4095 && k.Ch? && Ordinary([k.c]))
    ensures Press(l, k) == l
  {
    if k.Ch? && |l.text| == 4095 && Ordinary([k.c]) {
      assert [k.c][0] == k.c;
    }
  }

  /** An erase key takes the last character away. */
  lemma ErasingKeyTakesLast(w: string, c: char, k: Key)
    requires k == Ch('\U{0008}') || k == Ch('\U{007F}')
    ensures Press(Line(w + [c], false), k) == Line(w, false)
  {
  }

  // ---------------------------------------------------------------- what a redraw writes

  /** The part of a character array that "%s" prints. */
  ghost function CString(s: string): string {
    if s == "" || s[0] == NUL then "" else [s[0]] + CString(s[1..])
  }

  /** Length of the part that "%s" prints of an array in which position `n` is the first NUL. */
  lemma {:induction false} CStringIsPrefix(s: string, n: nat)
    requires n < |s| && s[n] == NUL && NUL !in s[..n]
    ensures CString(s) == s[..n]
    decreases n
  {
    if n == 0 {
    } else {
      assert s[0] == s[..n][0];
      assert s[1..][..n - 1] == s[..n][1..];
      CStringIsPrefix(s[1..], n - 1);
    }
  }

  lemma {:induction false} CStringStopsAtNul(text: string, rest: string)
    requires rest != "" && rest[0] == NUL
    ensures CString(text + rest) == CString(text)
    decreases |text|
  {
    if text == "" {
      assert text + rest == rest;
    } else {
      assert (text + rest)[1..] == text[1..] + rest;
      CStringStopsAtNul(text[1..], rest);
    }
  }

  const CLEAR_LINE := [ESC, '[', '2', 'K', '\r']

  ghost function Redraw(prompt: string, text: string, msg: string): string {
    CLEAR_LINE + msg + prompt + CString(text)
  }

  ghost predicate Fits(prompt: string, text: string, msg: string) {
    |msg| < MAXLINE && |Redraw(prompt, text, msg)| < 2 * MAXLINE
  }

  /** The last character overwritten by the closing NUL. */
  ghost function WithoutLast(s: string): string
    requires s != ""
  {
    s[..|s| - 1] + [NUL]
  }

  /** What the array holds where the message is, as far as the offset is moved on. The offset
      counts characters that were asked for, not characters that were stored: behind a message
      too long for its part there is what the array held before. */
  ghost function Body(msg: string, stack: string): (r: string)
    requires |stack| >= |CLEAR_LINE| + |msg|
    ensures |r| == |msg|
  {
    if |msg| < MAXLINE then msg
    else msg[..MAXLINE - 1] + [NUL] + stack[|CLEAR_LINE| + MAXLINE..|CLEAR_LINE| + |msg|]
  }

  /** What a print writes out if its array held `stack` before. A redraw as long as the array has
      lost its last character to the closing NUL; with a longer one the program leaves the
      array, and this is None. */
  ghost function Written(prompt: string, text: string, msg: string, stack: string): Option<string>
    requires |stack| == 2 * MAXLINE
  {
    if |Redraw(prompt, text, msg)| > 2 * MAXLINE then None
    else
      var all := CLEAR_LINE + Body(msg, stack) + prompt + CString(text);
      Some(if |all| == 2 * MAXLINE && prompt + CString(text) != "" then WithoutLast(all) else all)
  }

  /** snprintf of `s` at `a + off` with the given size: stores what fits and a NUL. */
  ghost function Stored(a: string, off: nat, size: nat, s: string): (r: string)
    requires off + size <= |a|
    ensures |r| == |a|
  {
    if size == 0 then a
    else if |s| < size then a[..off] + s + [NUL] + a[off + |s| + 1..]
    else a[..off] + s[..size - 1] + [NUL] + a[off + size..]
  }

  /** The text that a field of `len` characters holds of what is copied into it. */
  function Cut(text: string, len: nat): (kept: string)
    requires len > 0
    ensures kept <= text && |kept| == if |text| < len then |text| else len - 1
  {
    if |text| < len then text else text[..len - 1]
  }

  /** The field itself: the text cut, and filled up with NULs. */
  ghost function Field(text: string, len: nat): (field: string)
    requires len > 0
    ensures |field| == len && field[len - 1] == NUL
    ensures NUL !in text ==> CString(field) == Cut(text, len)
  {
    var kept := Cut(text, len);
    var nuls := seq(len - |kept|, _ => NUL);
    assert NUL !in text ==> CString(kept + nuls) == kept by {
      CStringStopsAtNul(kept, nuls);
      if NUL !in kept {
        NoNulIsCString(kept);
      }
    }
    kept + nuls
  }

  lemma {:induction false} NoNulIsCString(s: string)
    requires NUL !in s
    ensures CString(s) == s
    decreases |s|
  {
    if s == "" {
    } else {
      NoNulIsCString(s[1..]);
    }
  }

  lemma StoredWhole(a: string, off: nat, size: nat, s: string)
    requires off + size <= |a| && |s| < size
    ensures Stored(a, off, size, s)[..off + |s|] == a[..off] + s
    ensures forall i, j | off + |s| < i <= j <= |a| :: Stored(a, off, size, s)[i..j] == a[i..j]
  {
  }

  lemma StoredCut(a: string, off: nat, size: nat, s: string, n: nat)
    requires 0 < size <= |s| && off + size <= n <= |a|
    ensures Stored(a, off, size, s)[..n] == a[..off] + s[..size - 1] + [NUL] + a[off + size..n]
  {
  }

  lemma BodyIsStored(msg: string, stack: string)
    requires |stack| == 2 * MAXLINE && |CLEAR_LINE| + |msg| <= 2 * MAXLINE
    ensures var a := Stored(Stored(stack, 0, 2 * MAXLINE, CLEAR_LINE), |CLEAR_LINE|, MAXLINE, msg);
            a[..|CLEAR_LINE| + |msg|] == CLEAR_LINE + Body(msg, stack)
  {
    var cleared, n := Stored(stack, 0, 2 * MAXLINE, CLEAR_LINE), |CLEAR_LINE|;
    StoredWhole(stack, 0, 2 * MAXLINE, CLEAR_LINE);
    if |msg| < MAXLINE {
      StoredWhole(cleared, n, MAXLINE, msg);
    } else {
      StoredCut(cleared, n, MAXLINE, msg, n + |msg|);
      assert CLEAR_LINE + msg[..MAXLINE - 1] + [NUL] + stack[n + MAXLINE..n + |msg|] == CLEAR_LINE + Body(msg, stack);
    }
  }

  /** Two pieces stored one behind the other, in an array that they just fill or do not fill. */
  lemma InputIsStored(a: string, off: nat, first: string, second: string)
    requires off + |first| + |second| <= |a|
    ensures var b := Stored(Stored(a, off, |a| - off, first), off + |first|, |a| - off - |first|, second);
            var all := a[..off] + first + second;
            b[..|all|] == if |all| == |a| && |all| > off then WithoutLast(all) else all
  {
    var m := Stored(a, off, |a| - off, first);
    var b := Stored(m, off + |first|, |a| - off - |first|, second);
    if second == "" {
      assert a[..off] + first + second == a[..off] + first;
    } else {
      assert m[..off + |first|] == a[..off] + first;
    }
  }

  // ---------------------------------------------------------------- the program

  class LineBuffer {
    const buf: array<char>
    var prompt: string
    var pos: nat
    var lineReady: bool

    ghost predicate Valid()
      reads this, buf
    {
      buf.Length == MAXLINE && pos < MAXLINE && buf[pos] == NUL && |prompt| < PROMPT_SIZE
    }

    ghost function View(): Line
      reads this, buf
      requires Valid()
    {
      Line(buf[..pos], lineReady)
    }

    /** The zero-initialized global buffer. */
    constructor ()
      ensures Valid() && View() == Line("", false) && fresh(buf)
    {
      buf := new char[MAXLINE](_ => NUL);
      prompt, pos, lineReady := "", 0, false;
    }

    method Reset()
      requires Valid()
      modifies this`pos, this`lineReady, buf
      ensures Valid() && View() == Line("", false)
    {
      pos := 0;
      buf[0] := NUL;
      lineReady := false;
    }

    /** The prompt is the user's name and an arrow, cut to what the field holds. */
    method SetPrompt(name: string)
      requires Valid()
      modifies this`prompt
      ensures Valid() && View() == old(View())
      ensures prompt == Cut(name + " > ", PROMPT_SIZE)
    {
      prompt := Cut(name + " > ", PROMPT_SIZE);
    }

    /** `out` is what the call writes to the terminal. */
    method GetChar(c: Key) returns (out: string)
      requires Valid()
      modifies this`pos, this`lineReady, buf
      ensures Valid() && View() == Press(old(View()), c) && out == Echo(old(View()), c)
    {
      out := "";
      if (c == Ch('\n') || c == Ch(EOT) || c == Eof) && pos > 0 {
        buf[pos] := NUL;
        lineReady := true;
      } else if (c == Ch(BS) || c == Ch('\n') || c == Ch(DEL)) && pos == 0 {
      } else if (c == Ch(BS) || c == Ch(DEL)) && pos > 0 {
        pos := pos - 1;
        buf[pos] := NUL;
        out := [BS, ' ', BS];
      } else if c != Eof && c != Ch(EOT) && pos < MAXLINE - 1 {
        buf[pos] := c.c;
        pos := pos + 1;
        buf[pos] := NUL;
        out := [c.c];
      }
    }

    /** Length of the typed text up to its first NUL. */
    method Strlen() returns (n: nat)
      requires Valid()
      ensures n <= pos && buf[..n] == CString(View().text)
    {
      n := 0;
      while buf[n] != NUL
        invariant n <= pos && NUL !in buf[..n]
        decreases pos - n
      {
        n := n + 1;
      }
      CStringIsPrefix(buf[..], n);
      assert buf[..][..n] == buf[..n];
      CStringStopsAtNul(buf[..pos], buf[pos..]);
      assert buf[..pos] + buf[pos..] == buf[..];
    }

    /** Returns the offset behind all of `s`, stored or not. */
    static method Snprintf(output: array<char>, off: nat, size: nat, s: string) returns (end: nat)
      requires off + size <= output.Length
      modifies output
      ensures end == off + |s| && output[..] == Stored(old(output[..]), off, size, s)
    {
      end := off + |s|;
      if size == 0 {
        return;
      }
      var stop := if |s| < size then off + |s| else off + size - 1;
      var k := off;
      while k < stop
        invariant off <= k <= stop
        invariant forall i | 0 <= i < output.Length ::
                    output[i] == if off <= i < k then s[i - off] else old(output[i])
      {
        output[k] := s[k - off];
        k := k + 1;
      }
      output[stop] := NUL;
    }

    /** `written` is what the call writes to the terminal; `stack` is what the array on the stack
        held before. */
    method Print(msg: string) returns (written: Option<string>, ghost stack: string)
      requires Valid()
      ensures |stack| == 2 * MAXLINE && written == Written(prompt, View().text, msg, stack)
      ensures written.None? <==> |Redraw(prompt, View().text, msg)| > 2 * MAXLINE
      ensures Fits(prompt, View().text, msg) ==> written == Some(Redraw(prompt, View().text, msg))
    {
      var n := Strlen();
      var output := new char[2 * MAXLINE];
      stack := output[..];
      if |CLEAR_LINE| + |msg| + |prompt| + n > 2 * MAXLINE {
        return None, stack;
      }
      var off := FormatMessage(output, msg);
      ghost var body := output[..off];
      off := FormatInput(output, off, prompt, buf[..n]);
      assert body + prompt + buf[..n] == CLEAR_LINE + Body(msg, stack) + prompt + CString(View().text);
      return Some(output[..off]), stack;
    }

    static method FormatMessage(output: array<char>, msg: string) returns (end: nat)
      requires output.Length == 2 * MAXLINE && |CLEAR_LINE| + |msg| <= 2 * MAXLINE
      modifies output
      ensures end == |CLEAR_LINE| + |msg| && output[..end] == CLEAR_LINE + Body(msg, old(output[..]))
    {
      ghost var stack := output[..];
      end := Snprintf(output, 0, 2 * MAXLINE, CLEAR_LINE);
      end := Snprintf(output, end, MAXLINE, msg);
      BodyIsStored(msg, stack);
      assert output[..end] == output[..][..end];
    }

    static method FormatInput(output: array<char>, off: nat, first: string, second: string) returns (end: nat)
      requires off + |first| + |second| <= output.Length
      modifies output
      ensures end == off + |first| + |second|
      ensures var all := old(output[..off]) + first + second;
              output[..end] == if end == output.Length && end > off then WithoutLast(all) else all
    {
      ghost var a := output[..];
      end := Snprintf(output, off, output.Length - off, first);
      end := Snprintf(output, end, output.Length - end, second);
      InputIsStored(a, off, first, second);
      assert output[..end] == output[..][..end] && a[..off] == old(output[..off]);
    }

    /** Puts the prompt up and reads one line into a field of `len` characters. `keys` is what
        is typed; `done` is false if it runs out before the line is ready. */
    method NonCanonicalRead(keys: seq<Key>, len: nat)
      returns (done: bool, out: string, shown: Option<string>, echo: string)
      requires Valid() && len > 0
      modifies this`pos, this`lineReady, buf
      ensures Valid() && prompt == old(prompt)
      ensures View() == Typed(Line("", false), keys) && done == View().ready
      ensures echo == Echoed(Line("", false), keys)
      ensures shown == Some(CLEAR_LINE + prompt)
      ensures out == Field(CString(View().text), len)
      ensures forall w | TypesLine(keys, w) ::
                done && View().text == w && (NUL !in w && |w| < len ==> CString(out) == w)
    {
      Reset();
      shown := ShowPrompt();
      echo := ReadKeys(keys);
      done := lineReady;
      out := CopyOut(len);
      LineIsRead(keys, len);
    }

    /** Reads keys until the line is ready. */
    method ReadKeys(keys: seq<Key>) returns (echo: string)
      requires Valid()
      modifies this`pos, this`lineReady, buf
      ensures Valid() && prompt == old(prompt)
      ensures View() == Typed(old(View()), keys) && echo == Echoed(old(View()), keys)
    {
      ghost var start := View();
      echo := "";
      var i := 0;
      while !lineReady && i < |keys|
        invariant Valid() && i <= |keys| && prompt == old(prompt)
        invariant Typed(View(), keys[i..]) == Typed(start, keys)
        invariant echo + Echoed(View(), keys[i..]) == Echoed(start, keys)
      {
        assert keys[i..][0] == keys[i] && keys[i..][1..] == keys[i + 1..];
        var o := GetChar(keys[i]);
        echo := echo + o;
        i := i + 1;
      }
      assert lineReady || keys[i..] == [];
    }

    method ShowPrompt() returns (shown: Option<string>)
      requires Valid() && View().text == ""
      ensures shown == Some(CLEAR_LINE + prompt)
    {
      ghost var stack;
      shown, stack := Print("");
      assert Redraw(prompt, "", "") == CLEAR_LINE + prompt;
    }

    /** strncpy of the text into a field, with its last character set to NUL. */
    method CopyOut(len: nat) returns (out: string)
      requires Valid() && len > 0
      ensures out == Field(CString(View().text), len)
    {
      var n := Strlen();
      out := if n < len then buf[..n] + seq(len - n, _ => NUL) else buf[..len - 1] + [NUL];
      assert n >= len ==> buf[..len - 1] == buf[..n][..len - 1];
    }
  }
}
