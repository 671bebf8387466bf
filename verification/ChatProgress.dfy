/** The waits of the chat. The server sleeps while the box of the client it is serving is full;
    only that client's receiving thread can end that. */
module ChatProgress {
  import opened ChatSpec
  import opened ChatSystem
  import opened ChatRefinement
  import opened ChatStreams
  import opened Runs

  /** Steps of the server and of the receiving threads: no new requests. */
  ghost predicate OnlyDrains(run: seq<Action>) {
    forall a: Action | a in run :: a.Serve? || a.Receive?
  }

  lemma StepFirst(s: State, a: Action, rest: seq<Action>)
    requires Possible(s, a) && (a.Serve? || a.Receive?)
    requires Legal(Chat(), Next(s, a), rest) && OnlyDrains(rest)
    ensures Legal(Chat(), s, [a] + rest) && OnlyDrains([a] + rest)
    ensures After(Chat(), s, [a] + rest) == After(Chat(), Next(s, a), rest)
  {
    OneStepFirst(Chat(), s, a, rest);
  }

  // ---------------------------------------------------------------- one request

  /** LIST replies still to be sent. */
  ghost function RepliesLeft(room: Room, req: Message, i: nat): nat
    requires i <= MAX_CLIENT + 1
    decreases MAX_CLIENT + 1 - i
  {
    if i > MAX_CLIENT then 0
    else (if room[i].live && i != req.sender then 1 else 0) + RepliesLeft(room, req, i + 1)
  }

  /** The server can get to the end of its present request: the client it waits for is still
      reading, or its box has room for all that is to come. */
  ghost predicate CanComplete(s: State)
    requires Shape(s)
  {
    match s.pc
    case Idle => true
    case Casting(_, _) => true
    case Listing(i, req, _) =>
      s.members[req.sender].reading || |s.members[req.sender].box| + RepliesLeft(s.room, req, i) <= CAPACITY
    case Whispering(_, msg, tested) =>
      tested || s.members[msg.sender].reading || !Full(s.members[msg.sender])
    case Undefined => false
  }

  /** The server's next step is another look at a full box. */
  ghost predicate Sleeps(s: State)
    requires Shape(s)
  {
    match s.pc
    case Listing(i, req, tested) =>
      i <= MAX_CLIENT && s.room[i].live && i != req.sender && !tested && Full(s.members[req.sender])
    case Whispering(_, msg, tested) => !tested && Full(s.members[msg.sender])
    case _ => false
  }

  /** Server steps to the end of the present request, waits not counted. */
  ghost function Work(pc: Pc): nat {
    match pc
    case Idle => 0
    case Undefined => 0
    case Casting(i, _) => if i <= MAX_CLIENT + 1 then MAX_CLIENT + 2 - i else 0
    case Listing(i, _, tested) =>
      if i <= MAX_CLIENT + 1 then 2 * (MAX_CLIENT + 1 - i) + (if tested then 1 else 2) else 0
    case Whispering(_, _, tested) => if tested then 1 else 2
  }

  lemma ServerMovesOn(s: State)
    requires Shape(s) && !s.pc.Idle? && !s.pc.Undefined?
    ensures Sleeps(s) ==> Next(s, Serve) == s
    ensures !Sleeps(s) ==> Work(Next(s, Serve).pc) < Work(s.pc) && !Next(s, Serve).pc.Undefined?
    ensures Next(s, Serve).queue == s.queue && Next(s, Serve).room == s.room
  {
  }

  lemma ServerStaysCompletable(s: State)
    requires Shape(s) && !s.pc.Idle? && CanComplete(s)
    ensures CanComplete(Next(s, Serve))
  {
  }

  lemma {:induction false} CompleteRequest(s: State) returns (run: seq<Action>)
    requires Shape(s) && CanComplete(s)
    ensures Legal(Chat(), s, run) && OnlyDrains(run) && After(Chat(), s, run).pc.Idle?
    decreases Work(s.pc), if s.pc.Listing? then |s.members[s.pc.req.sender].box|
                          else if s.pc.Whispering? then |s.members[s.pc.msg.sender].box| else 0
  {
    if s.pc.Idle? {
      run := [];
    } else if Sleeps(s) {
      var a := Receive(if s.pc.Listing? then s.pc.req.sender else s.pc.msg.sender);
      var rest := CompleteRequest(Next(s, a));
      StepFirst(s, a, rest);
      run := [a] + rest;
    } else {
      ServerMovesOn(s);
      ServerStaysCompletable(s);
      var rest := CompleteRequest(Next(s, Serve));
      StepFirst(s, Serve, rest);
      run := [Serve] + rest;
    }
  }

  ghost predicate Stuck(s: State) {
    Shape(s) && TestHolds(s) && !CanComplete(s)
  }

  lemma StuckStays(s: State, a: Action)
    requires Stuck(s) && Possible(s, a) && (a.Serve? || a.Receive?)
    ensures Stuck(Next(s, a))
  {
  }

  lemma {:induction false} StuckForever(s: State, run: seq<Action>)
    requires Stuck(s) && Legal(Chat(), s, run) && OnlyDrains(run)
    ensures Stuck(After(Chat(), s, run))
    decreases |run|
  {
    if run == [] {
    } else {
      assert run[0] in run;
      StuckStays(s, run[0]);
      StuckForever(Next(s, run[0]), run[1..]);
    }
  }

  /** Exactly when a reachable server can finish what it is doing by its own steps and those of
      the receiving threads: it is not lost in an undefined whisper, and the client whose box
      it waits for reads on or has room enough. */
  lemma ServerFinishesExactlyWhen(start: seq<Action>)
    requires Legal(Chat(), Init(), start)
    ensures var s := After(Chat(), Init(), start);
            && Shape(s)
            && ((exists run :: Legal(Chat(), s, run) && OnlyDrains(run) && After(Chat(), s, run).pc.Idle?)
                <==> CanComplete(s))
  {
    StreamsAlwaysOk(start);
    var s := After(Chat(), Init(), start);
    if CanComplete(s) {
      var run := CompleteRequest(s);
    } else {
      forall run | Legal(Chat(), s, run) && OnlyDrains(run) ensures !After(Chat(), s, run).pc.Idle? {
        StuckForever(s, run);
      }
    }
  }

  /** The server waits for, or tests, the box of `c`. */
  ghost predicate Served(pc: Pc, c: nat) {
    match pc
    case Listing(_, req, _) => req.sender == c
    case Whispering(_, msg, _) => msg.sender == c
    case _ => false
  }

  /** Places in the server's box that a client's sending thread needs on its way to the end. A
      request that is past its test is sent in any case, and a QUIT is the last. */
  ghost function PlacesToLeave(out: Outbox): nat {
    match out
    case Off => 0
    case Free => 1
    case Wants(msg) => if msg.kind.Quit? then 1 else 2
    case Ready(msg) => if msg.kind.Quit? then 0 else 2
  }

  /** The client can leave and be started anew while the server takes no requests. */
  ghost predicate CanRestart(s: State, c: nat)
    requires Shape(s) && IsClient(c)
  {
    |s.queue| + PlacesToLeave(s.members[c].out) <= CAPACITY
  }

  /** The server is stuck, and a client it waits for cannot be started anew. */
  ghost predicate StuckForGood(s: State) {
    && Stuck(s)
    && forall c | 1 <= c <= MAX_CLIENT && Served(s.pc, c) :: !CanRestart(s, c)
  }

  lemma RestartGetsNoNearer(s: State, a: Action, c: nat)
    requires Possible(s, a) && !a.Serve? && IsClient(c) && !CanRestart(s, c)
    ensures !CanRestart(Next(s, a), c) && !(a.Start? && a.c == c)
  {
  }

  lemma StuckForGoodStays(s: State, a: Action)
    requires StuckForGood(s) && Possible(s, a)
    ensures StuckForGood(Next(s, a)) && !Next(s, a).pc.Idle?
  {
    var t := Next(s, a);
    if a.Serve? {
      StuckStays(s, a);
      ServeKeepsAwaited(s);
    } else {
      OthersKeepServer(s, a);
      forall c | 1 <= c <= MAX_CLIENT && Served(s.pc, c)
        ensures !CanRestart(t, c) && t.members[c].box == s.members[c].box && !t.members[c].reading
      {
        RestartGetsNoNearer(s, a, c);
        assert !s.members[c].reading;
      }
      StuckByOthers(s, t);
    }
  }

  lemma ServeKeepsAwaited(s: State)
    requires Stuck(s) && Possible(s, Serve)
    ensures var t := Next(s, Serve);
            && t.queue == s.queue && t.room == s.room
            && forall c | 1 <= c <= MAX_CLIENT && Served(t.pc, c) ::
                 Served(s.pc, c) && t.members[c].out == s.members[c].out
  {
  }

  lemma StuckByOthers(s: State, t: State)
    requires Stuck(s) && Shape(t) && t.pc == s.pc && t.room == s.room
    requires forall c | 1 <= c <= MAX_CLIENT && Served(s.pc, c) ::
               t.members[c].box == s.members[c].box && !t.members[c].reading
    ensures Stuck(t) && !t.pc.Idle?
  {
    if s.pc.Listing? {
      assert Served(s.pc, s.pc.req.sender);
    } else if s.pc.Whispering? {
      assert Served(s.pc, s.pc.msg.sender);
    }
  }

  /** A server that waits for a client that has stopped reading, whose box does not have room
      enough, and that cannot get to its end, never finishes, whatever any client does from
      then on. */
  lemma StuckWhateverHappens(s: State, run: seq<Action>)
    requires StuckForGood(s) && Legal(Chat(), s, run)
    ensures !After(Chat(), s, run).pc.Idle?
  {
    forall u, a | StuckForGood(u) && Possible(u, a) ensures StuckForGood(Next(u, a)) {
      StuckForGoodStays(u, a);
    }
    EveryReachable(StuckForGood, s, run);
  }

  /** Nothing else helps: a stuck server does not finish unless the client it waits for is
      started again. */
  lemma {:induction false} OnlyRestartHelps(s: State, run: seq<Action>)
    requires Stuck(s) && Legal(Chat(), s, run)
    requires forall a | a in run :: a.Start? ==> !Served(s.pc, a.c)
    ensures !After(Chat(), s, run).pc.Idle?
    decreases |run|
  {
    if run == [] {
    } else {
      assert run[0] in run;
      StuckUntilRestart(s, run[0]);
      OnlyRestartHelps(Next(s, run[0]), run[1..]);
    }
  }

  lemma StuckUntilRestart(s: State, a: Action)
    requires Stuck(s) && Possible(s, a) && (a.Start? ==> !Served(s.pc, a.c))
    ensures Stuck(Next(s, a)) && !Next(s, a).pc.Idle?
    ensures forall c | 1 <= c <= MAX_CLIENT && Served(Next(s, a).pc, c) :: Served(s.pc, c)
  {
    var t := Next(s, a);
    if a.Serve? {
      StuckStays(s, a);
      ServeKeepsAwaited(s);
    } else {
      OthersKeepServer(s, a);
      assert forall c | 1 <= c <= MAX_CLIENT && Served(s.pc, c) :: !s.members[c].reading;
      StuckByOthers(s, t);
    }
  }

  /** The steps by which a client gets to its end: it sends what it is about to send, and quits. */
  ghost function LeaveStep(s: State, c: nat): Action
    requires Shape(s) && IsClient(c) && !s.members[c].out.Off?
  {
    match s.members[c].out
    case Free => Ask(c, Message(Quit, c, "", "/quit"))
    case Wants(_) => Test(c)
    case _ => Send(c)
  }

  ghost function StepsToLeave(out: Outbox): nat {
    match out
    case Off => 0
    case Free => 3
    case Wants(msg) => if msg.kind.Quit? then 2 else 5
    case Ready(msg) => if msg.kind.Quit? then 1 else 4
  }

  lemma LeavesStepByStep(s: State, c: nat)
    requires Shape(s) && IsClient(c) && CanRestart(s, c) && !s.members[c].out.Off?
    ensures Possible(s, LeaveStep(s, c))
    ensures var t := Next(s, LeaveStep(s, c));
            && t.pc == s.pc && t.room == s.room && t.log == s.log
            && CanRestart(t, c) && StepsToLeave(t.members[c].out) < StepsToLeave(s.members[c].out)
  {
  }

  lemma {:induction false} Leave(s: State, c: nat) returns (run: seq<Action>)
    requires Shape(s) && IsClient(c) && CanRestart(s, c)
    ensures Legal(Chat(), s, run)
    ensures var t := After(Chat(), s, run);
            Shape(t) && t.pc == s.pc && t.room == s.room && t.members[c].out.Off?
    decreases StepsToLeave(s.members[c].out)
  {
    if s.members[c].out.Off? {
      run := [];
    } else {
      var a := LeaveStep(s, c);
      LeavesStepByStep(s, c);
      var rest := Leave(Next(s, a), c);
      OneStepFirst(Chat(), s, a, rest);
      run := [a] + rest;
    }
  }

  /** A client that can is started anew, reads on, and lets the server finish. */
  lemma FinishAfterRestart(s: State, c: nat) returns (run: seq<Action>)
    requires Shape(s) && IsClient(c) && Served(s.pc, c) && CanRestart(s, c)
    ensures Legal(Chat(), s, run) && After(Chat(), s, run).pc.Idle?
  {
    run := Leave(s, c);
    run := Then(s, run, Start(c, ""));
    var rest := CompleteRequest(After(Chat(), s, run));
    run := ThenRun(s, run, rest);
  }

  /** Exactly when a reachable server can finish what it is doing if everybody may act: if it
      can on its own, or waits for a client that can be started anew. */
  lemma ServerCanFinishExactlyWhen(start: seq<Action>)
    requires Legal(Chat(), Init(), start)
    ensures var s := After(Chat(), Init(), start);
            && Shape(s)
            && ((exists run :: Legal(Chat(), s, run) && After(Chat(), s, run).pc.Idle?)
                <==> CanComplete(s) || exists c | 1 <= c <= MAX_CLIENT :: Served(s.pc, c) && CanRestart(s, c))
  {
    StreamsAlwaysOk(start);
    var s := After(Chat(), Init(), start);
    if CanComplete(s) {
      var run := CompleteRequest(s);
    } else if c :| 1 <= c <= MAX_CLIENT && Served(s.pc, c) && CanRestart(s, c) {
      var run := FinishAfterRestart(s, c);
    } else {
      forall run | Legal(Chat(), s, run) ensures !After(Chat(), s, run).pc.Idle? {
        StuckWhateverHappens(s, run);
      }
    }
  }

  // ---------------------------------------------------------------- everything

  /** A request of `c` for which the server will wait for room in `c`'s box is in the queue. */
  ghost predicate WillWaitFor(queue: seq<Message>, c: nat) {
    exists k :: 0 <= k < |queue| && queue[k].sender == c && (queue[k].kind.List? || queue[k].kind.Whisper?)
  }

  /** Every client whose box the server waits for, or will, is reading. Nobody else has to be:
      not those who only broadcast or leave, nor those who only get messages. */
  ghost predicate AwaitedListen(s: State)
    requires Shape(s)
  {
    forall c | 1 <= c <= MAX_CLIENT ::
      WillWaitFor(s.queue, c) || Served(s.pc, c) ==> s.members[c].reading
  }

  /** Each whisper waiting to be handled will have a receiver. */
  ghost predicate WhispersDefined(room: Room, queue: seq<Message>)
    requires AllFromClients(queue)
    decreases |queue|
  {
    queue == [] ||
    ((queue[0].kind.Whisper? ==> WhisperDefined(room, queue[0]))
     && WhispersDefined(NextRoom(room, queue[0]), queue[1..]))
  }

  ghost predicate Flowing(s: State) {
    Shape(s) && AwaitedListen(s) && WhispersDefined(s.room, s.queue) && !s.pc.Undefined?
  }

  /** Nothing is left to be handled, and nothing to be read by anybody who reads. */
  ghost predicate AtRest(s: State) {
    && Shape(s) && s.pc.Idle? && s.queue == []
    && forall c | 1 <= c <= MAX_CLIENT && s.members[c].reading :: s.members[c].box == []
  }

  ghost function Pending(members: seq<Member>, n: nat): nat
    requires n < |members|
  {
    if n == 0 then 0 else Pending(members, n - 1) + |members[n].box|
  }

  lemma {:induction false} PendingOneLess(members: seq<Member>, c: nat, m: Member, n: nat)
    requires 1 <= c < |members| && n < |members| && |m.box| + 1 == |members[c].box|
    ensures Pending(members[c := m], n) == Pending(members, n) - (if c <= n then 1 else 0)
    decreases n
  {
    if n == 0 {
    } else {
      PendingOneLess(members, c, m, n - 1);
    }
  }

  lemma ReceiveKeepsFlowing(s: State, c: nat)
    requires Flowing(s) && Possible(s, Receive(c))
    ensures Flowing(Next(s, Receive(c)))
    ensures var t := Next(s, Receive(c));
            t.queue == s.queue && t.pc == s.pc && Pending(t.members, MAX_CLIENT) < Pending(s.members, MAX_CLIENT)
  {
    var m := s.members[c];
    PendingOneLess(s.members, c, m.(box := m.box[1..], got := m.got + [m.box[0]]), MAX_CLIENT);
  }

  lemma BeginKeepsFlowing(s: State)
    requires Flowing(s) && s.pc.Idle? && s.queue != []
    ensures Flowing(Next(s, Serve)) && |Next(s, Serve).queue| < |s.queue|
  {
    var t, req := Next(s, Serve), s.queue[0];
    BeginFollowsSpec(s);
    assert t.members == s.members;
    forall c | 1 <= c <= MAX_CLIENT && (WillWaitFor(t.queue, c) || Served(t.pc, c))
      ensures s.members[c].reading
    {
      if Served(t.pc, c) {
        assert req.sender == c && (req.kind.List? || req.kind.Whisper?);
        assert WillWaitFor(s.queue, c);
      } else {
        var k :| 0 <= k < |t.queue| && t.queue[k].sender == c && (t.queue[k].kind.List? || t.queue[k].kind.Whisper?);
        assert s.queue[k + 1] == t.queue[k];
        assert WillWaitFor(s.queue, c);
      }
    }
  }

  lemma ServeKeepsFlowing(s: State)
    requires Flowing(s) && !s.pc.Idle? && !Sleeps(s)
    ensures Flowing(Next(s, Serve))
  {
    ServerMovesOn(s);
  }

  /** The step to take: receive what is there, else let the server go on. */
  lemma NextDrain(s: State) returns (a: Action)
    requires Flowing(s) && !AtRest(s)
    ensures (a.Serve? || a.Receive?) && Possible(s, a) && Flowing(Next(s, a)) && Next(s, a) != s
    ensures var t := Next(s, a);
            || |t.queue| < |s.queue|
            || (t.queue == s.queue && Work(t.pc) < Work(s.pc))
            || (t.queue == s.queue && t.pc == s.pc
                && Pending(t.members, MAX_CLIENT) < Pending(s.members, MAX_CLIENT))
  {
    if c :| 1 <= c <= MAX_CLIENT && s.members[c].reading && s.members[c].box != [] {
      a := Receive(c);
      ReceiveKeepsFlowing(s, c);
    } else {
      a := Serve;
      if s.pc.Idle? {
        BeginKeepsFlowing(s);
      } else {
        ServerMovesOn(s);
        ServeKeepsFlowing(s);
      }
    }
  }

  lemma {:induction false} Drain(s: State) returns (run: seq<Action>)
    requires Flowing(s)
    ensures Legal(Chat(), s, run) && OnlyDrains(run) && AtRest(After(Chat(), s, run))
    decreases |s.queue|, Work(s.pc), Pending(s.members, MAX_CLIENT)
  {
    if AtRest(s) {
      run := [];
    } else {
      var a := NextDrain(s);
      var rest := Drain(Next(s, a));
      StepFirst(s, a, rest);
      run := [a] + rest;
    }
  }

  lemma DrainStepHandles(s: State, a: Action)
    requires Possible(s, a) && (a.Serve? || a.Receive?)
    ensures Next(s, a).handled + Next(s, a).queue == s.handled + s.queue
  {
    if a.Serve? && s.pc.Idle? {
      assert s.handled + [s.queue[0]] + s.queue[1..] == s.handled + s.queue;
    }
  }

  lemma {:induction false} DrainHandles(s: State, run: seq<Action>)
    requires Shape(s) && Legal(Chat(), s, run) && OnlyDrains(run)
    ensures After(Chat(), s, run).handled + After(Chat(), s, run).queue == s.handled + s.queue
    decreases |run|
  {
    if run == [] {
    } else {
      assert run[0] in run;
      DrainStepHandles(s, run[0]);
      DrainHandles(Next(s, run[0]), run[1..]);
    }
  }

  /** No circular wait. In every state in which those who are waited for are reading and no
      whisper is undefined, either everything is at rest or some step changes something; and
      the server and the receiving threads alone can bring everything to rest: all the queued
      requests handled, in order, and every box empty whose owner still reads. */
  lemma NoCircularWait(s: State)
    requires Flowing(s)
    ensures AtRest(s) || exists a: Action :: (a.Serve? || a.Receive?) && Possible(s, a) && Next(s, a) != s
    ensures exists run ::
              && Legal(Chat(), s, run) && OnlyDrains(run) && AtRest(After(Chat(), s, run))
              && After(Chat(), s, run).handled == s.handled + s.queue
  {
    if !AtRest(s) {
      var a := NextDrain(s);
    }
    var run := Drain(s);
    DrainHandles(s, run);
    var t := After(Chat(), s, run);
    assert t.handled + [] == t.handled;
  }
}
