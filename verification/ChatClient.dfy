/** The two threads of a client. The sending thread makes typed lines into requests, all of
    them the same message changed in place; the receiving thread prints what it gets. */
module ChatClient {
  import opened ChatSpec
  import opened ChatSystem
  import LineEditor
  import Screen

  const USER_NAME_LEN := 32

  // One turn of the sending loop, by the lines it reads.

  ghost predicate Whispers(lines: seq<string>)
    requires lines != []
  {
    lines[0] == "/whisper" && |lines| >= 3
  }

  ghost function Used(lines: seq<string>): (n: nat)
    requires lines != []
    ensures 1 <= n <= |lines|
  {
    if lines[0] != "/whisper" then 1 else if |lines| < 3 then |lines| else 3
  }

  /** Not after leaving, and not when a dialogue has run out of lines. */
  ghost predicate GoesOn(lines: seq<string>)
    requires lines != []
  {
    lines[0] != "/quit" && (lines[0] == "/whisper" ==> |lines| >= 3)
  }

  /** Whom the turn whispers to. */
  ghost function Whom(lines: seq<string>): seq<string>
    requires lines != []
  {
    if Whispers(lines) then [LineEditor.Cut(lines[1], USER_NAME_LEN)] else []
  }

  ghost function LastOr(names: seq<string>, name: string): string {
    if names == [] then name else names[|names| - 1]
  }

  ghost function Posted(id: nat, name: string, lines: seq<string>): seq<Message>
    requires lines != []
  {
    if lines[0] == "/quit" then [Message(Quit, id, name, "/quit")]
    else if lines[0] == "/list" then [Message(List, id, name, "/list")]
    else if lines[0] == "/help" then []
    else if lines[0] != "/whisper" then [Message(Broadcast, id, name, lines[0])]
    else [Message(List, id, name, "/whisper")]
         + (if Whispers(lines) then [Message(Whisper, id, LastOr(Whom(lines), name), lines[2])] else [])
  }

  /** The requests the lines amount to; `name` is what the message carries as sender name. */
  ghost function Requests(id: nat, name: string, lines: seq<string>): seq<Message>
    decreases |lines|
  {
    if lines == [] then []
    else Posted(id, name, lines)
         + (if GoesOn(lines) then Requests(id, LastOr(Whom(lines), name), lines[Used(lines)..]) else [])
  }

  lemma OneTurn(id: nat, name: string, lines: seq<string>, before: seq<Message>)
    requires lines != []
    ensures before + Requests(id, name, lines)
         == before + Posted(id, name, lines)
            + (if GoesOn(lines) then Requests(id, LastOr(Whom(lines), name), lines[Used(lines)..]) else [])
  {
  }

  /** Whom the lines whisper to, up to leaving. */
  ghost function Targets(lines: seq<string>): seq<string>
    decreases |lines|
  {
    if lines == [] then []
    else Whom(lines) + (if GoesOn(lines) then Targets(lines[Used(lines)..]) else [])
  }

  lemma PostedIsTheClients(id: nat, name: string, lines: seq<string>)
    requires lines != []
    ensures forall k | 0 <= k < |Posted(id, name, lines)| ::
              var r := Posted(id, name, lines)[k];
              && r.sender == id && ByUser(r.kind)
              && (r.kind.Quit? ==> r.name == name && !GoesOn(lines) && |Posted(id, name, lines)| == 1)
  {
  }

  /** Every request carries the client's id, and its kind is one a user can ask for. */
  lemma {:induction false} RequestsAreTheClients(id: nat, name: string, lines: seq<string>)
    ensures forall k | 0 <= k < |Requests(id, name, lines)| ::
              Requests(id, name, lines)[k].sender == id && ByUser(Requests(id, name, lines)[k].kind)
    decreases |lines|
  {
    if lines == [] {
    } else {
      PostedIsTheClients(id, name, lines);
      if GoesOn(lines) {
        RequestsAreTheClients(id, LastOr(Whom(lines), name), lines[Used(lines)..]);
      }
    }
  }

  // ---------------------------------------------------------------- what the lines become

  /** The lines that open a turn, up to leaving: not those that answer a "/whisper". */
  ghost function Openers(lines: seq<string>): seq<string>
    decreases |lines|
  {
    if lines == [] then []
    else if lines[0] == "/quit" then ["/quit"]
    else if lines[0] == "/whisper" then ["/whisper"] + (if |lines| < 3 then [] else Openers(lines[3..]))
    else [lines[0]] + Openers(lines[1..])
  }

  /** The answers to each "/whisper", up to leaving: the name, as far as its field holds it, and
      the text. */
  ghost function Dialogues(lines: seq<string>): seq<(string, string)>
    decreases |lines|
  {
    if lines == [] || lines[0] == "/quit" then []
    else if lines[0] != "/whisper" then Dialogues(lines[1..])
    else if |lines| < 3 then []
    else [(LineEditor.Cut(lines[1], 32), lines[2])] + Dialogues(lines[3..])
  }

  ghost predicate IsCommand(line: string) {
    line == "/quit" || line == "/whisper" || line == "/list" || line == "/help"
  }

  ghost function Said(openers: seq<string>): seq<string> {
    if openers == [] then []
    else (if IsCommand(openers[0]) then [] else [openers[0]]) + Said(openers[1..])
  }

  ghost function Count(openers: seq<string>, command: string): nat {
    if openers == [] then 0 else (if openers[0] == command then 1 else 0) + Count(openers[1..], command)
  }

  ghost function OfKind(reqs: seq<Message>, kind: Kind): seq<Message> {
    if reqs == [] then [] else (if reqs[0].kind == kind then [reqs[0]] else []) + OfKind(reqs[1..], kind)
  }

  ghost function Texts(reqs: seq<Message>): seq<string> {
    seq(|reqs|, k requires 0 <= k < |reqs| => reqs[k].text)
  }

  ghost function NamesAndTexts(reqs: seq<Message>): seq<(string, string)> {
    seq(|reqs|, k requires 0 <= k < |reqs| => (reqs[k].name, reqs[k].text))
  }

  lemma {:induction false} OfKindAppends(first: seq<Message>, second: seq<Message>, kind: Kind)
    ensures OfKind(first + second, kind) == OfKind(first, kind) + OfKind(second, kind)
    decreases |first|
  {
    if first == [] {
      assert first + second == second;
    } else {
      var one, tail := if first[0].kind == kind then [first[0]] else [], first[1..] + second;
      assert (first + second)[0] == first[0] && (first + second)[1..] == tail;
      OfKindAppends(first[1..], second, kind);
      calc {
        OfKind(first + second, kind);
        one + OfKind(tail, kind);
        one + (OfKind(first[1..], kind) + OfKind(second, kind));
        (one + OfKind(first[1..], kind)) + OfKind(second, kind);
      }
    }
  }

  lemma TextsAppend(first: seq<Message>, second: seq<Message>)
    ensures Texts(first + second) == Texts(first) + Texts(second)
    ensures NamesAndTexts(first + second) == NamesAndTexts(first) + NamesAndTexts(second)
  {
  }

  /** The requests by kind: what is said becomes a BROADCAST each, a "/list" and a "/whisper" a
      LIST each, the answers to a "/whisper" a WHISPER, "/quit" a QUIT, and "/help" nothing. */
  ghost predicate Becomes(
      reqs: seq<Message>, said: seq<string>, dialogues: seq<(string, string)>, lists: nat, quits: nat)
  {
    && Texts(OfKind(reqs, Broadcast)) == said
    && NamesAndTexts(OfKind(reqs, Whisper)) == dialogues
    && |OfKind(reqs, List)| == lists && |OfKind(reqs, Quit)| == quits
    && |reqs| == |said| + |dialogues| + lists + quits
  }

  lemma BecomesAppends(
      r1: seq<Message>, s1: seq<string>, d1: seq<(string, string)>, l1: nat, q1: nat,
      r2: seq<Message>, s2: seq<string>, d2: seq<(string, string)>, l2: nat, q2: nat)
    requires Becomes(r1, s1, d1, l1, q1) && Becomes(r2, s2, d2, l2, q2)
    ensures Becomes(r1 + r2, s1 + s2, d1 + d2, l1 + l2, q1 + q2)
  {
    OfKindAppends(r1, r2, Broadcast);
    OfKindAppends(r1, r2, Whisper);
    OfKindAppends(r1, r2, List);
    OfKindAppends(r1, r2, Quit);
    TextsAppend(OfKind(r1, Broadcast), OfKind(r2, Broadcast));
    TextsAppend(OfKind(r1, Whisper), OfKind(r2, Whisper));
  }

  lemma OneBecomes(m: Message)
    requires ByUser(m.kind)
    ensures Becomes([m], if m.kind.Broadcast? then [m.text] else [],
                    if m.kind.Whisper? then [(m.name, m.text)] else [],
                    if m.kind.List? then 1 else 0, if m.kind.Quit? then 1 else 0)
  {
    assert [m][1..] == [];
    assert forall kind :: OfKind([m], kind) == if m.kind == kind then [m] else [];
    assert Texts([m]) == [m.text] && NamesAndTexts([m]) == [(m.name, m.text)];
  }

  lemma PostedBecomes(id: nat, name: string, lines: seq<string>)
    requires lines != []
    ensures Becomes(Posted(id, name, lines),
                    if IsCommand(lines[0]) then [] else [lines[0]],
                    if Whispers(lines) then [(LineEditor.Cut(lines[1], 32), lines[2])] else [],
                    if lines[0] == "/list" || lines[0] == "/whisper" then 1 else 0,
                    if lines[0] == "/quit" then 1 else 0)
  {
    var posted := Posted(id, name, lines);
    if posted != [] {
      OneBecomes(posted[0]);
      if Whispers(lines) {
        var list, whisper := posted[0], posted[1];
        OneBecomes(whisper);
        BecomesAppends([list], [], [], 1, 0, [whisper], [], [(whisper.name, whisper.text)], 0, 0);
        assert posted == [list] + [whisper];
        assert [] + [(whisper.name, whisper.text)] == [(whisper.name, whisper.text)];
      } else {
        assert posted == [posted[0]];
      }
    }
  }

  lemma OpenersOfTurn(lines: seq<string>)
    requires lines != []
    ensures Openers(lines) == [lines[0]] + (if GoesOn(lines) then Openers(lines[Used(lines)..]) else [])
    ensures Dialogues(lines)
         == (if Whispers(lines) then [(LineEditor.Cut(lines[1], 32), lines[2])] else [])
            + (if GoesOn(lines) then Dialogues(lines[Used(lines)..]) else [])
  {
  }

  lemma OneOpenerMore(first: string, rest: seq<string>)
    ensures Said([first] + rest) == (if IsCommand(first) then [] else [first]) + Said(rest)
    ensures forall command ::
              Count([first] + rest, command) == (if first == command then 1 else 0) + Count(rest, command)
  {
    assert ([first] + rest)[1..] == rest;
  }

  /** `reqs` are what the turns with these openers, and these dialogues, become. */
  ghost predicate BecomeOf(reqs: seq<Message>, openers: seq<string>, dialogues: seq<(string, string)>) {
    Becomes(reqs, Said(openers), dialogues,
            Count(openers, "/list") + Count(openers, "/whisper"), Count(openers, "/quit"))
  }

  lemma TurnBecomes(
      id: nat, name: string, lines: seq<string>,
      later: seq<Message>, openers: seq<string>, dialogues: seq<(string, string)>)
    requires lines != [] && BecomeOf(later, openers, dialogues)
    ensures BecomeOf(Posted(id, name, lines) + later, [lines[0]] + openers,
                     (if Whispers(lines) then [(LineEditor.Cut(lines[1], 32), lines[2])] else []) + dialogues)
  {
    PostedBecomes(id, name, lines);
    OneOpenerMore(lines[0], openers);
    BecomesAppends(
      Posted(id, name, lines), if IsCommand(lines[0]) then [] else [lines[0]],
      if Whispers(lines) then [(LineEditor.Cut(lines[1], 32), lines[2])] else [],
      if lines[0] == "/list" || lines[0] == "/whisper" then 1 else 0, if lines[0] == "/quit" then 1 else 0,
      later, Said(openers), dialogues, Count(openers, "/list") + Count(openers, "/whisper"), Count(openers, "/quit"));
  }

  /** What the typed lines become, whatever the lines. */
  lemma {:induction false} WhatLinesBecome(id: nat, name: string, lines: seq<string>)
    ensures BecomeOf(Requests(id, name, lines), Openers(lines), Dialogues(lines))
    decreases |lines|
  {
    if lines == [] {
    } else if GoesOn(lines) {
      var next, rest := LastOr(Whom(lines), name), lines[Used(lines)..];
      WhatLinesBecome(id, next, rest);
      OpenersOfTurn(lines);
      TurnBecomes(id, name, lines, Requests(id, next, rest), Openers(rest), Dialogues(rest));
    } else {
      OpenersOfTurn(lines);
      TurnBecomes(id, name, lines, [], [], []);
    }
  }

  // ---------------------------------------------------------------- the name they carry

  /** The targets of the whispers among some requests. */
  ghost function Whispered(reqs: seq<Message>): seq<string> {
    if reqs == [] then []
    else (if reqs[0].kind.Whisper? then [reqs[0].name] else []) + Whispered(reqs[1..])
  }

  lemma {:induction false} WhisperedAppends(first: seq<Message>, second: seq<Message>)
    ensures Whispered(first + second) == Whispered(first) + Whispered(second)
    decreases |first|
  {
    if first == [] {
      assert first + second == second;
    } else {
      var one, tail := if first[0].kind.Whisper? then [first[0].name] else [], first[1..] + second;
      assert (first + second)[0] == first[0] && (first + second)[1..] == tail;
      WhisperedAppends(first[1..], second);
      calc {
        Whispered(first + second);
        one + Whispered(tail);
        one + (Whispered(first[1..]) + Whispered(second));
        (one + Whispered(first[1..])) + Whispered(second);
      }
    }
  }

  /** A whisper sets the name; every other request carries the name it finds. */
  ghost predicate NamesRight(reqs: seq<Message>, name: string)
    decreases |reqs|
  {
    reqs == [] || ((!reqs[0].kind.Whisper? ==> reqs[0].name == name) && NamesRight(reqs[1..], reqs[0].name))
  }

  lemma LastOrAppends(first: seq<string>, second: seq<string>, name: string)
    ensures LastOr(first + second, name) == LastOr(second, LastOr(first, name))
  {
  }

  lemma {:induction false} NamesRightAppends(first: seq<Message>, second: seq<Message>, name: string)
    requires NamesRight(first, name) && NamesRight(second, LastOr(Whispered(first), name))
    ensures NamesRight(first + second, name)
    decreases |first|
  {
    if first == [] {
      assert first + second == second;
    } else {
      assert (first + second)[1..] == first[1..] + second;
      LastOrAppends(if first[0].kind.Whisper? then [first[0].name] else [], Whispered(first[1..]), name);
      NamesRightAppends(first[1..], second, first[0].name);
    }
  }

  /** So the name of a request is the target of the last whisper up to it. */
  lemma {:induction false} NameIsLastWhispered(reqs: seq<Message>, name: string, k: nat)
    requires NamesRight(reqs, name) && k < |reqs|
    ensures reqs[k].name == LastOr(Whispered(reqs[..k + 1]), name)
    decreases k
  {
    var upTo := reqs[..k + 1];
    assert upTo[1..] == reqs[1..][..k];
    LastOrAppends(if reqs[0].kind.Whisper? then [reqs[0].name] else [], Whispered(upTo[1..]), name);
    if k == 0 {
      assert upTo[1..] == [];
    } else {
      NameIsLastWhispered(reqs[1..], reqs[0].name, k - 1);
    }
  }

  lemma PostedNames(id: nat, name: string, lines: seq<string>)
    requires lines != []
    ensures Whispered(Posted(id, name, lines)) == Whom(lines) && NamesRight(Posted(id, name, lines), name)
  {
    var posted := Posted(id, name, lines);
    if Whispers(lines) {
      var whisper := posted[1];
      assert posted[1..] == [whisper] && [whisper][1..] == [];
      assert Whispered([whisper]) == [whisper.name] && NamesRight([whisper], name);
    } else if posted != [] {
      assert posted[1..] == [];
    }
  }

  /** The requests whisper to the targets of the lines, in order; and the name of every request,
      whatever its kind, is the target of the last whisper up to it, or the client's own if
      there was none. */
  lemma EveryRequestCarriesLastTarget(id: nat, name: string, lines: seq<string>)
    ensures Whispered(Requests(id, name, lines)) == Targets(lines)
    ensures forall k | 0 <= k < |Requests(id, name, lines)| ::
              Requests(id, name, lines)[k].name == LastOr(Whispered(Requests(id, name, lines)[..k + 1]), name)
  {
    RequestNames(id, name, lines);
    forall k | 0 <= k < |Requests(id, name, lines)|
      ensures Requests(id, name, lines)[k].name == LastOr(Whispered(Requests(id, name, lines)[..k + 1]), name)
    {
      NameIsLastWhispered(Requests(id, name, lines), name, k);
    }
  }

  lemma {:induction false} RequestNames(id: nat, name: string, lines: seq<string>)
    ensures Whispered(Requests(id, name, lines)) == Targets(lines)
    ensures NamesRight(Requests(id, name, lines), name)
    decreases |lines|
  {
    if lines == [] {
    } else {
      var first, next, rest := Posted(id, name, lines), LastOr(Whom(lines), name), lines[Used(lines)..];
      var later := if GoesOn(lines) then Requests(id, next, rest) else [];
      PostedNames(id, name, lines);
      if GoesOn(lines) {
        RequestNames(id, next, rest);
      }
      WhisperedAppends(first, later);
      NamesRightAppends(first, later, name);
      assert Requests(id, name, lines) == first + later;
    }
  }

  /** Leaving is the last request, and its sender name is that of the last whisper's target,
      if there was one. */
  lemma {:induction false} QuitCarriesLastTarget(id: nat, name: string, lines: seq<string>, k: nat)
    requires k < |Requests(id, name, lines)| && Requests(id, name, lines)[k].kind.Quit?
    ensures k == |Requests(id, name, lines)| - 1
    ensures Requests(id, name, lines)[k].name == LastOr(Targets(lines), name)
    decreases |lines|
  {
    var first := Posted(id, name, lines);
    PostedIsTheClients(id, name, lines);
    if k < |first| {
      assert Requests(id, name, lines)[k] == first[k];
    } else {
      var next, rest := LastOr(Whom(lines), name), lines[Used(lines)..];
      assert Requests(id, name, lines)[k] == Requests(id, next, rest)[k - |first|];
      QuitCarriesLastTarget(id, next, rest, k - |first|);
    }
  }

  /** What the room is told when the client leaves names the client itself exactly if it never
      whispered, or whispered last to somebody of its own name. */
  lemma FarewellNamesTheClientIff(r: Room, id: nat, name: string, lines: seq<string>, k: nat)
    requires IsClient(id)
    requires k < |Requests(id, name, lines)| && Requests(id, name, lines)[k].kind.Quit?
    ensures var quit, targets := Requests(id, name, lines)[k], Targets(lines);
            && quit.sender == id
            && (Dispatches(r, quit)[0].msg.text == name + " has left the room"
                <==> targets == [] || targets[|targets| - 1] == name)
  {
    RequestsAreTheClients(id, name, lines);
    QuitCarriesLastTarget(id, name, lines, k);
    var quit := Requests(id, name, lines)[k];
    var a, b, tail := quit.name + " has left the room", name + " has left the room", " has left the room";
    if a == b {
      assert |quit.name| == |name|;
      assert quit.name == a[..|name|] && name == b[..|name|];
    }
  }

  lemma WhispersAndLeaves(id: nat, name: string, target: string, text: string)
    requires |target| < USER_NAME_LEN
    ensures Requests(id, name, ["/whisper", target, text, "/quit"])
         == [Message(List, id, name, "/whisper"), Message(Whisper, id, target, text),
             Message(Quit, id, target, "/quit")]
  {
    var lines := ["/whisper", target, text, "/quit"];
    var rest := lines[3..];
    assert rest == ["/quit"] && Whom(lines) == [target] && Whom(rest) == [];
    OneTurn(id, name, lines, []);
    OneTurn(id, target, rest, []);
  }

  /** So a client that whispers to bob and leaves is announced as bob. */
  lemma WhispererLeavesUnderAnotherName(r: Room)
    ensures var quit := Requests(1, "alice", ["/whisper", "bob", "hello", "/quit"])[2];
            Dispatches(r, quit)[0].msg.text == "bob" + " has left the room"
  {
    WhispersAndLeaves(1, "alice", "bob", "hello");
  }

  // ---------------------------------------------------------------- receiving

  /** What the receiving thread prints for a message, without its newline. */
  ghost function ShownLine(m: Message): string {
    match m.kind
    case Server => "[Server] " + m.text
    case Whisper => "[Private] " + m.name + ": " + m.text
    case Broadcast => "> " + m.name + ": " + m.text
    case _ => "Unknown message type"
  }

  lemma {:induction false} OneLine(cur: string, s: string)
    requires Screen.AllPrintable(s)
    ensures Screen.Lines(cur, s + ['\n']) == [cur + s]
    decreases |s|
  {
    if s == "" {
      assert s + ['\n'] == ['\n'] && ['\n'][1..] == "" && cur + s == cur;
    } else {
      assert (s + ['\n'])[1..] == s[1..] + ['\n'];
      OneLine(cur + [s[0]], s[1..]);
      assert cur + [s[0]] + s[1..] == cur + s;
    }
  }

  /** A printable message is one whole line for the screen, so Screen.PeersNeverInterrupt
      applies to it: it stands above the prompt unbroken. */
  lemma ReceivedMessageIsOneLine(m: Message)
    requires Screen.AllPrintable(m.name) && Screen.AllPrintable(m.text)
    ensures Screen.Message(ShownLine(m) + ['\n']) && Screen.OneLine(ShownLine(m) + ['\n'])
    ensures Screen.Lines("", ShownLine(m) + ['\n']) == [ShownLine(m)]
  {
    var line := ShownLine(m);
    assert Screen.AllPrintable(line) by {
      assert Screen.AllPrintable("[Server] ") && Screen.AllPrintable("[Private] ")
          && Screen.AllPrintable("> ") && Screen.AllPrintable(": ") && Screen.AllPrintable("Unknown message type");
    }
    OneLine("", line);
    assert "" + line == line;
  }

  /** Exactly which broadcasts leave the line a receiver is typing as it was: those that are,
      with their sender's name, of at most 4090 characters, and of at most 8181 with prompt and
      typed line. A user can type 4095 characters. */
  lemma BroadcastRestoresExactlyWhen(t: Screen.Terminal, m: Message, prompt: string, text: string, stack: string)
    requires m.kind.Broadcast? && Screen.AllPrintable(m.name) && Screen.AllPrintable(m.text)
    requires Screen.AllPrintable(prompt) && Screen.AllPrintable(text) && |prompt| < LineEditor.PROMPT_SIZE
    requires |stack| == 2 * LineEditor.MAXLINE && (|m.name| + |m.text| > 4090 ==> Screen.Plain(stack))
    ensures Screen.Restores(t, prompt, text, ShownLine(m) + ['\n'], stack)
            <==> |m.name| + |m.text| <= 4090 && |m.name| + |m.text| + |prompt| + |text| <= 8181
  {
    ReceivedMessageIsOneLine(m);
    Screen.PrintableIsCString(text);
    assert |ShownLine(m)| == 4 + |m.name| + |m.text|;
    Screen.RestoresExactlyWhenItFits(t, prompt, text, ShownLine(m) + ['\n'], stack);
  }

  ghost predicate CanBeTyped(line: string) {
    Screen.AllPrintable(line) &&
    LineEditor.Typed(LineEditor.Line("", false), LineEditor.Keys(line)) == LineEditor.Line(line, false)
  }

  lemma ShortLinesCanBeTyped(line: string)
    requires Screen.AllPrintable(line) && |line| < LineEditor.MAXLINE
    ensures CanBeTyped(line)
  {
    LineEditor.OrdinaryKeysPush(LineEditor.Line("", false), line);
    assert "" + line == line;
  }

  ghost function PromptOf(name: string): string {
    LineEditor.Cut(name + " > ", LineEditor.PROMPT_SIZE)
  }

  /** A broadcast that one user can type, and the line another user has typed when it comes. */
  ghost predicate CanMeet(m: Message, receiver: string, text: string) {
    && m.kind.Broadcast? && CanBeTyped(m.text) && CanBeTyped(text)
    && Screen.AllPrintable(m.name) && |m.name| < USER_NAME_LEN
    && Screen.AllPrintable(receiver) && |receiver| < USER_NAME_LEN
  }

  /** So the feature fails: prompt, message and typed line can just fill the array, and then no
      terminal shows the line ... */
  lemma OverfullHappens() returns (m: Message, receiver: string, text: string)
    ensures CanMeet(m, receiver, text)
    ensures |LineEditor.Redraw(PromptOf(receiver), text, ShownLine(m) + ['\n'])| == 2 * LineEditor.MAXLINE
    ensures forall t, stack | |stack| == 2 * LineEditor.MAXLINE ::
              !Screen.Restores(t, PromptOf(receiver), text, ShownLine(m) + ['\n'], stack)
  {
    m := Message(Broadcast, 1, "alice", seq(4085, _ => 'y'));
    receiver, text := "bob", seq(4086, _ => 'x');
    ShortLinesCanBeTyped(m.text);
    ShortLinesCanBeTyped(text);
    Screen.PrintableIsCString(text);
    assert PromptOf(receiver) == "bob > ";
    assert |ShownLine(m)| == 4 + 5 + 4085;
    forall t, stack | |stack| == 2 * LineEditor.MAXLINE
      ensures !Screen.Restores(t, PromptOf(receiver), text, ShownLine(m) + ['\n'], stack)
    {
      BroadcastRestoresExactlyWhen(t, m, PromptOf(receiver), text, stack);
    }
  }

  /** ... and they can be longer than it, though the message is not too long for its part, and
      then the print leaves the array. */
  lemma ArrayCanBeLeft() returns (m: Message, receiver: string, text: string)
    ensures CanMeet(m, receiver, text) && |ShownLine(m) + ['\n']| < LineEditor.MAXLINE
    ensures forall stack: string | |stack| == 2 * LineEditor.MAXLINE ::
              LineEditor.Written(PromptOf(receiver), text, ShownLine(m) + ['\n'], stack).None?
  {
    m := Message(Broadcast, 1, seq(31, _ => 'a'), seq(4059, _ => 'y'));
    receiver, text := seq(13, _ => 'b'), seq(4095, _ => 'x');
    ShortLinesCanBeTyped(m.text);
    ShortLinesCanBeTyped(text);
    Screen.PrintableIsCString(text);
    assert |PromptOf(receiver)| == 15;
    assert |ShownLine(m)| == 4 + 31 + 4059;
  }

  // ---------------------------------------------------------------- the sending program

  class Sender {
    var msg: Message
    var running: bool

    constructor (id: nat, name: string)
      ensures msg.sender == id && msg.name == name && running
    {
      msg := Message(Kind.Server, id, name, "");
      running := true;
    }

    /** One turn of the loop: `used` lines are read; `open` if a dialogue has run out of lines.
        `posted` is what is put into the server's box, in order. */
    method SendLine(lines: seq<string>) returns (posted: seq<Message>, used: nat, open: bool)
      requires running && lines != []
      modifies this
      ensures posted == Posted(old(msg.sender), old(msg.name), lines) && used == Used(lines)
      ensures (running && !open) == GoesOn(lines)
      ensures msg.sender == old(msg.sender) && msg.name == LastOr(Whom(lines), old(msg.name))
    {
      posted, used, open := [], 1, false;
      msg := msg.(text := lines[0]);
      if msg.text == "/quit" {
        msg := msg.(kind := Quit);
        posted := [msg];
        running := false;
      } else if msg.text == "/whisper" {
        msg := msg.(kind := List);
        posted := [msg];
        msg := msg.(kind := Whisper);
        if |lines| < 3 {
          used, open := |lines|, true;
        } else {
          msg := msg.(name := LineEditor.Cut(lines[1], USER_NAME_LEN), text := lines[2]);
          posted, used := posted + [msg], 3;
        }
      } else if msg.text == "/list" {
        msg := msg.(kind := List);
        posted := [msg];
      } else if msg.text != "/help" {
        msg := msg.(kind := Broadcast);
        posted := [msg];
      }
    }

    /** Sends what the lines amount to. */
    method SendMessages(lines: seq<string>) returns (posted: seq<Message>)
      requires running
      modifies this
      ensures posted == Requests(old(msg.sender), old(msg.name), lines)
      ensures msg.sender == old(msg.sender)
    {
      posted := [];
      var rest, open := lines, false;
      while running && !open && rest != []
        invariant msg.sender == old(msg.sender)
        invariant Requests(old(msg.sender), old(msg.name), lines)
               == posted + (if running && !open then Requests(msg.sender, msg.name, rest) else [])
        decreases |rest|
      {
        OneTurn(msg.sender, msg.name, rest, posted);
        var more, used;
        more, used, open := SendLine(rest);
        posted, rest := posted + more, rest[used..];
      }
    }
  }
}
