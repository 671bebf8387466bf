/** From one client's keyboard to another's screen: the line that a receiver sees for what was
    typed, and for what the server announces, written out. */
module ChatDisplay {
  import opened ChatSpec
  import opened ChatClient
  import opened LineEditor
  import opened Options
  import Screen

  /** What a terminal shows once a message has been received and printed, in a redraw that fits,
      over what its user is typing. */
  ghost function After(t: Screen.Terminal, prompt: string, text: string, m: Message): Screen.Terminal {
    Screen.Feed(t, Redraw(prompt, text, ShownLine(m) + ['\n']))
  }

  /** The terminal with one line more above, and the typed line as it was. */
  ghost function WithLine(t: Screen.Terminal, prompt: string, text: string, line: string): Screen.Terminal {
    Screen.Terminal(t.above + [line], prompt + text, |prompt + text|)
  }

  ghost predicate Plain(prompt: string, text: string, m: Message) {
    && Screen.AllPrintable(prompt) && Screen.AllPrintable(text)
    && Screen.AllPrintable(m.name) && Screen.AllPrintable(m.text)
  }

  lemma PrintsLine(t: Screen.Terminal, prompt: string, text: string, m: Message)
    requires Plain(prompt, text, m)
    ensures After(t, prompt, text, m) == WithLine(t, prompt, text, ShownLine(m))
  {
    ReceivedMessageIsOneLine(m);
    Screen.RedrawRestores(t, prompt, text, ShownLine(m) + ['\n']);
  }

  // ---------------------------------------------------------------- what is typed

  /** Nothing among the lines whispers or leaves. */
  ghost predicate OnlySpeaks(lines: seq<string>) {
    forall k | 0 <= k < |lines| :: lines[k] != "/quit" && lines[k] != "/whisper"
  }

  lemma LoneLine(id: nat, name: string, line: string)
    requires line != "/whisper" && line != "/list" && line != "/help"
    ensures Requests(id, name, [line])
         == [if line == "/quit" then Message(Quit, id, name, "/quit") else Message(Broadcast, id, name, line)]
  {
    assert [line][1..] == [];
    OneTurn(id, name, [line], []);
  }

  lemma OneSpokenLine(id: nat, name: string, lines: seq<string>)
    requires lines != [] && lines[0] != "/quit" && lines[0] != "/whisper"
    ensures Requests(id, name, lines) == Posted(id, name, lines) + Requests(id, name, lines[1..])
  {
    OneTurn(id, name, lines, []);
  }

  lemma {:induction false} LastRequest(id: nat, name: string, lines: seq<string>, last: string)
    requires OnlySpeaks(lines) && last != "/whisper" && last != "/list" && last != "/help"
    ensures var reqs := Requests(id, name, lines + [last]);
            && reqs != []
            && reqs[|reqs| - 1]
               == if last == "/quit" then Message(Quit, id, name, "/quit") else Message(Broadcast, id, name, last)
    decreases |lines|
  {
    var all := lines + [last];
    if lines == [] {
      assert all == [last];
      LoneLine(id, name, last);
    } else {
      assert all[0] == lines[0] && all[1..] == lines[1..] + [last];
      LastRequest(id, name, lines[1..], last);
      OneSpokenLine(id, name, all);
    }
  }

  /** The last of the requests is dispatched once, to these clients, and seen by them as a line. */
  ghost predicate SeenAs(
      reqs: seq<Message>, r: Room, to: set<nat>, line: string, t: Screen.Terminal, prompt: string, text: string)
  {
    && reqs != [] && IsClient(reqs[|reqs| - 1].sender)
    && var sent := Dispatches(r, reqs[|reqs| - 1]);
       && |sent| == 1 && sent[0].to == to
       && After(t, prompt, text, sent[0].msg) == WithLine(t, prompt, text, line)
  }

  lemma BroadcastIsSeen(
      reqs: seq<Message>, id: nat, name: string, line: string,
      r: Room, t: Screen.Terminal, prompt: string, text: string)
    requires IsClient(id) && reqs != [] && reqs[|reqs| - 1] == Message(Broadcast, id, name, line)
    requires Screen.AllPrintable(name) && Screen.AllPrintable(line)
    requires Screen.AllPrintable(prompt) && Screen.AllPrintable(text)
    ensures SeenAs(reqs, r, LiveSet(r), "> " + name + ": " + line, t, prompt, text)
  {
    PrintsLine(t, prompt, text, Message(Broadcast, id, name, line));
  }

  /** A line typed by a client that has not whispered is seen above the prompt of everybody in the
      room, behind its name; and the receiver's own line is as it was. */
  lemma SpokenLineIsSeen(
      id: nat, name: string, lines: seq<string>, line: string,
      r: Room, t: Screen.Terminal, prompt: string, text: string)
    requires IsClient(id) && OnlySpeaks(lines)
    requires line != "/quit" && line != "/whisper" && line != "/list" && line != "/help"
    requires Screen.AllPrintable(name) && Screen.AllPrintable(line)
    requires Screen.AllPrintable(prompt) && Screen.AllPrintable(text)
    ensures SeenAs(Requests(id, name, lines + [line]), r, LiveSet(r), "> " + name + ": " + line, t, prompt, text)
  {
    LastRequest(id, name, lines, line);
    BroadcastIsSeen(Requests(id, name, lines + [line]), id, name, line, r, t, prompt, text);
  }

  /** A whisper to a client in the room, whose name no lower id has or had, is seen by it alone,
      behind the name its sender is registered by. */
  lemma WhisperedLineIsSeen(
      id: nat, name: string, target: string, line: string,
      r: Room, w: nat, t: Screen.Terminal, prompt: string, text: string)
    requires IsClient(id) && |target| < USER_NAME_LEN && r[id].owner == name
    requires IsClient(w) && r[w] == Session(target, true) && forall i | 1 <= i < w :: r[i].owner != target
    requires Screen.AllPrintable(name) && Screen.AllPrintable(line)
    requires Screen.AllPrintable(prompt) && Screen.AllPrintable(text)
    ensures SeenAs(Requests(id, name, ["/whisper", target, line]), r, {w}, "[Private] " + name + ": " + line,
                   t, prompt, text)
  {
    var lines := ["/whisper", target, line];
    assert lines[3..] == [] && Whom(lines) == [target];
    OneTurn(id, name, lines, []);
    WhisperReachesIff(r, Message(Whisper, id, target, line), w);
    PrintsLine(t, prompt, text, Message(Whisper, id, name, line));
  }

  // ---------------------------------------------------------------- what is announced

  /** Joining is seen by everybody in the room then, the newcomer included ... */
  lemma ComingIsSeen(
      id: nat, name: string, r: Room, t: Screen.Terminal, prompt: string, text: string)
    requires IsClient(id) && Screen.AllPrintable(name)
    requires Screen.AllPrintable(prompt) && Screen.AllPrintable(text)
    ensures SeenAs([Message(Join, id, name, "")], r, LiveSet(r[id := Session(name, true)]),
                   "[Server] " + name + " has joined the room", t, prompt, text)
  {
    Announced(id, name, " has joined the room", t, prompt, text);
  }

  lemma QuitIsSeen(
      reqs: seq<Message>, id: nat, name: string, r: Room, t: Screen.Terminal, prompt: string, text: string)
    requires IsClient(id) && reqs != [] && reqs[|reqs| - 1] == Message(Quit, id, name, "/quit")
    requires Screen.AllPrintable(name) && Screen.AllPrintable(prompt) && Screen.AllPrintable(text)
    ensures SeenAs(reqs, r, LiveSet(r) - {id}, "[Server] " + name + " has left the room", t, prompt, text)
  {
    assert LiveSet(r[id := r[id].(live := false)]) == LiveSet(r) - {id};
    Announced(id, name, " has left the room", t, prompt, text);
  }

  /** ... and leaving, of a client that has only spoken, by everybody else. */
  lemma GoingIsSeen(
      id: nat, name: string, lines: seq<string>,
      r: Room, t: Screen.Terminal, prompt: string, text: string)
    requires IsClient(id) && OnlySpeaks(lines) && Screen.AllPrintable(name)
    requires Screen.AllPrintable(prompt) && Screen.AllPrintable(text)
    ensures SeenAs(Requests(id, name, lines + ["/quit"]), r, LiveSet(r) - {id},
                   "[Server] " + name + " has left the room", t, prompt, text)
  {
    LastRequest(id, name, lines, "/quit");
    QuitIsSeen(Requests(id, name, lines + ["/quit"]), id, name, r, t, prompt, text);
  }

  lemma Announced(id: nat, name: string, what: string, t: Screen.Terminal, prompt: string, text: string)
    requires Screen.AllPrintable(name) && Screen.AllPrintable(what)
    requires Screen.AllPrintable(prompt) && Screen.AllPrintable(text)
    ensures After(t, prompt, text, Message(Kind.Server, id, name, name + what))
         == WithLine(t, prompt, text, "[Server] " + name + what)
  {
    PrintsLine(t, prompt, text, Message(Kind.Server, id, name, name + what));
    assert "[Server] " + (name + what) == "[Server] " + name + what;
  }

  /** Each reply to a "/list" is seen as one line about another client in the room. */
  lemma ListedClientIsSeen(
      id: nat, name: string, r: Room, j: nat, t: Screen.Terminal, prompt: string, text: string)
    requires IsClient(id) && Screen.AllPrintable(name)
    requires forall c: nat | IsClient(c) && r[c].live :: Screen.AllPrintable(r[c].owner)
    requires Screen.AllPrintable(prompt) && Screen.AllPrintable(text)
    ensures Requests(id, name, ["/list"]) == [Message(List, id, name, "/list")]
    ensures var sent := Dispatches(r, Message(List, id, name, "/list"));
            j < |sent| ==>
              && sent[j].to == {id}
              && exists c: nat :: IsClient(c) && r[c].live && c != id
                   && After(t, prompt, text, sent[j].msg)
                      == WithLine(t, prompt, text, "[Server] " + r[c].owner + " is inside the room")
  {
    assert ["/list"][1..] == [];
    OneTurn(id, name, ["/list"], []);
    var req := Message(List, id, name, "/list");
    var ids := RepliesEnumerateOthers(r, req, MAX_CLIENT + 1);
    if j < |Dispatches(r, req)| {
      var c := ids[j];
      var m := Message(Kind.Server, id, name, r[c].owner + " is inside the room");
      assert c in LiveSet(r) - {id} && Dispatches(r, req)[j].msg == m;
      PrintsLine(t, prompt, text, m);
      assert "[Server] " + (r[c].owner + " is inside the room") == "[Server] " + r[c].owner + " is inside the room";
    }
  }

  // ---------------------------------------------------------------- the receiving program

  class Receiver {
    const lines: LineBuffer

    constructor (lines: LineBuffer)
      ensures this.lines == lines
    {
      this.lines := lines;
    }

    /** The switch of the receiving thread; `written` is what goes to the terminal. */
    method Show(msg: Message) returns (written: Option<string>, ghost stack: string)
      requires lines.Valid()
      ensures |stack| == 2 * MAXLINE
      ensures written == Written(lines.prompt, lines.View().text, ShownLine(msg) + ['\n'], stack)
    {
      var output;
      match msg.kind {
        case Server => output := "[Server] " + msg.text + "\n";
        case Whisper => output := "[Private] " + msg.name + ": " + msg.text + "\n";
        case Broadcast => output := "> " + msg.name + ": " + msg.text + "\n";
        case _ => output := "Unknown message type\n";
      }
      assert output == ShownLine(msg) + ['\n'];
      written, stack := lines.Print(output);
    }
  }
}
