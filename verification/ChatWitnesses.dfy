/** Runs from the start in which the chat loses a request, drops a whisper and hangs. Every
    client in them is started before it asks for anything, and asks for what the program lets
    a user ask for. */
module ChatWitnesses {
  import opened ChatSpec
  import opened ChatSystem
  import opened ChatRequests
  import ChatStreams
  import ChatTheorems
  import opened ChatProgress
  import opened Runs

  const ALICE: nat := 1
  const BOB: nat := 2

  // ---------------------------------------------------------------- pieces of runs

  /** A client asks, finds room, and sends. */
  lemma Request(s: State, c: nat, msg: Message) returns (run: seq<Action>)
    requires Shape(s) && IsClient(c) && s.members[c].out.Free? && |s.queue| < CAPACITY
    requires msg.sender == c && ByUser(msg.kind)
    ensures Legal(Chat(), s, run)
    ensures var m := s.members[c];
            After(Chat(), s, run) == s.(
              queue := s.queue + [msg],
              members := s.members[c := m.(sent := m.sent + [msg], out := if msg.kind.Quit? then Off else Free)])
  {
    run := Then(s, [], Ask(c, msg));
    run := Then(s, run, Test(c));
    run := Then(s, run, Send(c));
  }

  /** Client `d` when the broadcast under way has come to its end. */
  ghost function Reached(s: State, d: nat): Member
    requires Shape(s) && s.pc.Casting? && d <= MAX_CLIENT
  {
    if s.pc.i <= d && s.room[d].live then Offered(s.members[d], Item(|s.log| - 1, s.pc.msg)) else s.members[d]
  }

  lemma CastStep(s: State)
    requires Shape(s) && s.pc.Casting? && s.pc.i <= MAX_CLIENT
    ensures var t := Next(s, Serve);
            && Shape(t) && t == s.(pc := Casting(s.pc.i + 1, s.pc.msg), members := t.members)
            && forall d | 0 <= d <= MAX_CLIENT :: Reached(t, d) == Reached(s, d)
  {
  }

  /** The rest of a broadcast. */
  lemma {:induction false} FinishCast(s: State) returns (run: seq<Action>)
    requires Shape(s) && s.pc.Casting?
    ensures Legal(Chat(), s, run)
    ensures var t := After(Chat(), s, run);
            && t == s.(pc := Idle, members := t.members) && |t.members| == MAX_CLIENT + 1
            && forall d | 0 <= d <= MAX_CLIENT :: t.members[d] == Reached(s, d)
    decreases MAX_CLIENT + 1 - s.pc.i
  {
    var t := Next(s, Serve);
    var rest := [];
    if s.pc.i <= MAX_CLIENT {
      CastStep(s);
      rest := FinishCast(t);
    }
    OneStepFirst(Chat(), s, Serve, rest);
    run := [Serve] + rest;
  }

  /** The rest of a LIST whose requester has room for whatever may come. */
  lemma {:induction false} FinishList(s: State) returns (run: seq<Action>)
    requires Shape(s) && s.pc.Listing?
    requires |s.members[s.pc.req.sender].box| + MAX_CLIENT + 1 - s.pc.i <= CAPACITY - 1
    ensures Legal(Chat(), s, run)
    ensures var c, t := s.pc.req.sender, After(Chat(), s, run);
            && t == s.(pc := Idle, log := t.log, members := t.members) && |t.members| == MAX_CLIENT + 1
            && |t.members[c].box| < CAPACITY
            && t.members == s.members[c := s.members[c].(box := t.members[c].box)]
    decreases MAX_CLIENT + 1 - s.pc.i, if s.pc.tested then 0 else 1
  {
    var t := Next(s, Serve);
    var rest := [];
    if s.pc.i <= MAX_CLIENT {
      rest := FinishList(t);
    }
    OneStepFirst(Chat(), s, Serve, rest);
    run := [Serve] + rest;
  }

  // ---------------------------------------------------------------- a lost request

  ghost function JoinOf(c: nat, name: string): Message {
    Message(Join, c, name, "")
  }

  ghost function Newcomer(c: nat, name: string): Member {
    Member([], true, Free, [], 0, {}, [JoinOf(c, name)], [])
  }

  /** Alice and Bob have started. */
  ghost function BothStarted(): (s: State) {
    Init().(queue := [JoinOf(ALICE, "alice"), JoinOf(BOB, "bob")],
            members := Init().members[ALICE := Newcomer(ALICE, "alice")][BOB := Newcomer(BOB, "bob")])
  }

  lemma BothStart() returns (run: seq<Action>)
    ensures Legal(Chat(), Init(), run) && After(Chat(), Init(), run) == BothStarted() && Shape(BothStarted())
  {
    run := Then(Init(), [], Start(ALICE, "alice"));
    assert Init().members[ALICE].sent + [JoinOf(ALICE, "alice")] == [JoinOf(ALICE, "alice")];
    assert After(Chat(), Init(), run).members[ALICE] == Newcomer(ALICE, "alice");
    run := Then(Init(), run, Start(BOB, "bob"));
    assert After(Chat(), Init(), run).members[BOB] == Newcomer(BOB, "bob");
  }

  lemma {:induction false} FillQueue(msg: Message, k: nat) returns (run: seq<Action>)
    requires msg.sender == ALICE && msg.kind.Broadcast? && 2 <= k <= CAPACITY
    ensures Legal(Chat(), Init(), run)
    ensures var s := After(Chat(), Init(), run);
            Shape(s) && |s.queue| == k && s.members[ALICE].out.Free? && s.members[BOB] == Newcomer(BOB, "bob")
    decreases k
  {
    if k == 2 {
      run := BothStart();
    } else {
      run := FillQueue(msg, k - 1);
      var once := Request(After(Chat(), Init(), run), ALICE, msg);
      run := ThenRun(Init(), run, once);
    }
  }

  /** A request can be lost: Bob asks, tests, finds room, and sends; his request is in neither
      the box nor the server's hands, and he is not told. */
  lemma RequestCanBeLost() returns (run: seq<Action>)
    ensures var t := After(Chat(), Init(), run);
            && Legal(Chat(), Init(), run) && Shape(t)
            && t.members[BOB].out == Free && t.members[BOB].sent == [JoinOf(BOB, "bob")]
            && t.members[BOB].lost == [Message(Broadcast, BOB, "bob", "hi")]
  {
    var first, second := Message(Broadcast, ALICE, "alice", "hi"), Message(Broadcast, BOB, "bob", "hi");
    run := FillQueue(first, CAPACITY - 1);
    run := Then(Init(), run, Ask(ALICE, first));
    run := Then(Init(), run, Ask(BOB, second));
    var s, race := After(Chat(), Init(), run), [Test(ALICE), Test(BOB), Send(ALICE), Send(BOB)];
    TwoTestsOnePlace(s, ALICE, BOB);
    run := ThenRun(Init(), run, race);
  }

  // ---------------------------------------------------------------- a full box

  /** Alice and Bob are in the room, alone, and Alice has read all there was. */
  ghost predicate Together(s: State) {
    && Shape(s) && s.pc.Idle? && s.queue == []
    && s.room == EmptyRoom()[ALICE := Session("alice", true)][BOB := Session("bob", true)]
    && s.members[ALICE].out.Free? && s.members[ALICE].reading && s.members[ALICE].box == []
    && s.members[BOB].out.Free? && s.members[BOB].reading
  }

  lemma HandleJoin(s: State, c: nat, name: string) returns (run: seq<Action>)
    requires Shape(s) && IsClient(c) && s.pc.Idle? && s.queue != [] && s.queue[0] == JoinOf(c, name)
    ensures Legal(Chat(), s, run)
    ensures var t, room := After(Chat(), s, run), s.room[c := Session(name, true)];
            var item := Item(|s.log|, Announcement(s.queue[0], " has joined the room"));
            && Shape(t) && t.pc.Idle? && t.queue == s.queue[1..] && t.room == room
            && forall d | 0 <= d <= MAX_CLIENT ::
                 t.members[d] == if 1 <= d && room[d].live then Offered(s.members[d], item) else s.members[d]
  {
    var rest := FinishCast(Next(s, Serve));
    OneStepFirst(Chat(), s, Serve, rest);
    run := [Serve] + rest;
  }

  lemma HandleBroadcast(s: State) returns (run: seq<Action>)
    requires Shape(s) && s.pc.Idle? && s.queue != [] && s.queue[0].kind.Broadcast?
    ensures Legal(Chat(), s, run)
    ensures var t, item := After(Chat(), s, run), Item(|s.log|, s.queue[0]);
            && Shape(t) && t.pc.Idle? && t.queue == s.queue[1..] && t.room == s.room
            && forall d | 0 <= d <= MAX_CLIENT ::
                 t.members[d] == if 1 <= d && s.room[d].live then Offered(s.members[d], item) else s.members[d]
  {
    var rest := FinishCast(Next(s, Serve));
    OneStepFirst(Chat(), s, Serve, rest);
    run := [Serve] + rest;
  }

  lemma BothJoin() returns (run: seq<Action>)
    ensures Legal(Chat(), Init(), run) && Together(After(Chat(), Init(), run))
  {
    var s := BothStarted();
    run := HandleJoin(s, ALICE, "alice");
    var more := HandleJoin(After(Chat(), s, run), BOB, "bob");
    run := ThenRun(s, run, more);
    more := ReadTwice(After(Chat(), s, run));
    run := ThenRun(s, run, more);
    var start := BothStart();
    run := ThenRun(Init(), start, run);
  }

  lemma ReadTwice(s: State) returns (run: seq<Action>)
    requires Shape(s) && s.members[ALICE].reading && |s.members[ALICE].box| >= 2
    ensures Legal(Chat(), s, run)
    ensures var m, t := s.members[ALICE], After(Chat(), s, run);
            && Shape(t) && t == s.(members := s.members[ALICE := t.members[ALICE]])
            && t.members[ALICE] == m.(box := m.box[2..], got := m.got + m.box[..2])
  {
    run := Then(s, [], Receive(ALICE));
    run := Then(s, run, Receive(ALICE));
    var m := s.members[ALICE];
    assert m.box[1..][1..] == m.box[2..] && m.got + [m.box[0]] + [m.box[1]] == m.got + m.box[..2];
  }

  /** Alice says something, the server handles it, and Alice reads it; Bob does not. */
  lemma OneMoreForBob(s: State) returns (run: seq<Action>)
    requires Together(s) && !Full(s.members[BOB])
    ensures Legal(Chat(), s, run)
    ensures var t := After(Chat(), s, run); Together(t) && |t.members[BOB].box| == |s.members[BOB].box| + 1
  {
    run := Request(s, ALICE, Message(Broadcast, ALICE, "alice", "hi"));
    var more := HandleBroadcast(After(Chat(), s, run));
    run := ThenRun(s, run, more);
    run := Then(s, run, Receive(ALICE));
  }

  lemma {:induction false} FillBobsBox(s: State) returns (run: seq<Action>)
    requires Together(s)
    ensures Legal(Chat(), s, run) && Together(After(Chat(), s, run)) && Full(After(Chat(), s, run).members[BOB])
    decreases CAPACITY - |s.members[BOB].box|
  {
    run := [];
    if !Full(s.members[BOB]) {
      run := OneMoreForBob(s);
      var rest := FillBobsBox(After(Chat(), s, run));
      run := ThenRun(s, run, rest);
    }
  }

  lemma BobIsFull() returns (run: seq<Action>)
    ensures Legal(Chat(), Init(), run)
    ensures Together(After(Chat(), Init(), run)) && Full(After(Chat(), Init(), run).members[BOB])
  {
    run := BothJoin();
    var fill := FillBobsBox(After(Chat(), Init(), run));
    run := ThenRun(Init(), run, fill);
  }

  // ---------------------------------------------------------------- a dropped whisper

  /** What the program sends first when a user types "/whisper". */
  lemma AliceLists(s: State) returns (run: seq<Action>)
    requires Together(s) && Full(s.members[BOB])
    ensures Legal(Chat(), s, run)
    ensures var t := After(Chat(), s, run);
            && Shape(t) && t.pc.Idle? && t.queue == [] && t.room == s.room
            && t.members[ALICE].out.Free? && !Full(t.members[ALICE]) && t.members[BOB] == s.members[BOB]
  {
    run := Request(s, ALICE, Message(List, ALICE, "alice", "/whisper"));
    run := Then(s, run, Serve);
    var rest := FinishList(After(Chat(), s, run));
    run := ThenRun(s, run, rest);
  }

  /** The last dispatch is Alice's whisper to Bob, and although Bob is in the room and reads on,
      it is not in his stream. */
  ghost predicate WhisperDropped(t: State) {
    && Shape(t) && t.pc.Idle? && t.log != []
    && t.room[BOB] == Session("bob", true) && t.members[BOB].reading
    && var k := |t.log| - 1;
       && t.log[k] == Entry(Private, Message(Whisper, ALICE, "alice", "hello"), {BOB})
       && k in t.members[BOB].dropped
       && Item(k, t.log[k].msg) !in Stream(t.members[BOB])
  }

  lemma FullBobMissesIt(s: State)
    requires ChatStreams.Inv(s) && s.pc == Whispering(BOB, Message(Whisper, ALICE, "alice", "hello"), true)
    requires s.room[BOB] == Session("bob", true) && s.members[BOB].reading && Full(s.members[BOB])
    ensures Possible(s, Serve) && WhisperDropped(Next(s, Serve))
  {
    ChatTheorems.WhisperDropsExactlyOnFullReceiver(s);
  }

  /** A whisper can be dropped: Alice whispers to Bob, and the server, having waited for room
      in Alice's box, is done with a whisper that Bob will never get. */
  lemma WhisperCanBeDropped() returns (run: seq<Action>)
    ensures var t := After(Chat(), Init(), run);
            Legal(Chat(), Init(), run) && WhisperDropped(t)
  {
    run := BobIsFull();
    var more := AliceLists(After(Chat(), Init(), run));
    run := ThenRun(Init(), run, more);
    more := AliceWhispers(After(Chat(), Init(), run));
    run := ThenRun(Init(), run, more);
    ChatStreams.StreamsAlwaysOk(run);
    FullBobMissesIt(After(Chat(), Init(), run));
    run := Then(Init(), run, Serve);
  }

  /** Up to the moment before the server sends. */
  lemma AliceWhispers(s: State) returns (run: seq<Action>)
    requires Shape(s) && s.pc.Idle? && s.queue == []
    requires s.room == EmptyRoom()[ALICE := Session("alice", true)][BOB := Session("bob", true)]
    requires s.members[ALICE].out.Free? && !Full(s.members[ALICE])
    ensures Legal(Chat(), s, run)
    ensures var t := After(Chat(), s, run);
            && Shape(t) && t.pc == Whispering(BOB, Message(Whisper, ALICE, "alice", "hello"), true)
            && t.room == s.room && t.members[BOB] == s.members[BOB]
  {
    run := Request(s, ALICE, Message(Whisper, ALICE, "bob", "hello"));
    run := Then(s, run, Serve);
    run := Then(s, run, Serve);
  }

  // ---------------------------------------------------------------- a server that hangs

  lemma BobListsAndQuits(s: State) returns (run: seq<Action>)
    requires Together(s) && Full(s.members[BOB])
    ensures Legal(Chat(), s, run)
    ensures var t := After(Chat(), s, run);
            && Shape(t) && t.pc.Idle? && t.room == s.room
            && t.queue == [Message(List, BOB, "bob", "/list"), Message(Quit, BOB, "bob", "/quit")]
            && t.members[BOB].out.Off? && !t.members[BOB].reading && Full(t.members[BOB])
  {
    run := Request(s, BOB, Message(List, BOB, "bob", "/list"));
    var more := Request(After(Chat(), s, run), BOB, Message(Quit, BOB, "bob", "/quit"));
    run := ThenRun(s, run, more);
    run := Then(s, run, Stop(BOB));
  }

  lemma ListingForBobHangs(s: State)
    requires Shape(s) && s.pc.Idle? && s.room[ALICE].live && s.room[BOB].live
    requires s.queue != [] && s.queue[0] == Message(List, BOB, "bob", "/list")
    requires !s.members[BOB].reading && Full(s.members[BOB])
    ensures Possible(s, Serve)
    ensures var t := Next(s, Serve);
            Stuck(t) && t.pc.Listing? && t.pc.req.sender == BOB && t.members[BOB] == s.members[BOB]
  {
    var t := Next(s, Serve);
    assert t.pc == Listing(1, s.queue[0], false) && t.members == s.members && t.room == s.room;
    assert RepliesLeft(t.room, t.pc.req, 1) >= 1;
  }

  /** The server can hang: Bob, whose box is full, asks for the list and quits, his receiving
      thread ends, and the server takes the LIST. Whatever anybody does from then on, no further
      request is handled unless Bob starts again; and if he does, they can be. */
  lemma ServerCanHang() returns (run: seq<Action>)
    ensures var t := After(Chat(), Init(), run);
            && Legal(Chat(), Init(), run) && Shape(t)
            && t.pc.Listing? && t.members[BOB].out.Off? && !t.members[BOB].reading
            && (forall more :: Legal(Chat(), t, more) && (forall a: Action | a in more :: !(a.Start? && a.c == BOB))
                               ==> !After(Chat(), t, more).pc.Idle?)
            && exists more :: Legal(Chat(), t, [Start(BOB, "bob")] + more)
                              && After(Chat(), t, [Start(BOB, "bob")] + more).pc.Idle?
  {
    run := BobIsFull();
    var more := BobListsAndQuits(After(Chat(), Init(), run));
    run := ThenRun(Init(), run, more);
    ListingForBobHangs(After(Chat(), Init(), run));
    run := Then(Init(), run, Serve);
    OnlyBobCanHelp(After(Chat(), Init(), run));
  }

  lemma OnlyBobCanHelp(t: State)
    requires Stuck(t) && t.pc.Listing? && t.pc.req.sender == BOB && t.members[BOB].out.Off?
    ensures forall more :: Legal(Chat(), t, more) && (forall a: Action | a in more :: !(a.Start? && a.c == BOB))
                           ==> !After(Chat(), t, more).pc.Idle?
    ensures exists more :: Legal(Chat(), t, [Start(BOB, "bob")] + more)
                           && After(Chat(), t, [Start(BOB, "bob")] + more).pc.Idle?
  {
    forall more | Legal(Chat(), t, more) && (forall a: Action | a in more :: !(a.Start? && a.c == BOB))
      ensures !After(Chat(), t, more).pc.Idle?
    {
      OnlyRestartHelps(t, more);
    }
    var more := CompleteRequest(Next(t, Start(BOB, "bob")));
    OneStepFirst(Chat(), t, Start(BOB, "bob"), more);
  }
}
