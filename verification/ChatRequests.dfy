/** The clients' requests on their way through the server's box: they are handled in order, and
    which of them get lost. The box has many producers and no lock, so between a client's full
    test and its send others may post. */
module ChatRequests {
  import opened ChatSpec
  import opened ChatSystem
  import opened Runs

  ghost function BySender(reqs: seq<Message>, c: nat): seq<Message> {
    if reqs == [] then []
    else BySender(reqs[..|reqs| - 1], c)
         + (if reqs[|reqs| - 1].sender == c then [reqs[|reqs| - 1]] else [])
  }

  lemma {:induction false} BySenderAppends(first: seq<Message>, second: seq<Message>, c: nat)
    ensures BySender(first + second, c) == BySender(first, c) + BySender(second, c)
    decreases |second|
  {
    var both := first + second;
    if second == [] {
      assert both == first;
    } else {
      assert both[..|both| - 1] == first + second[..|second| - 1];
      BySenderAppends(first, second[..|second| - 1], c);
    }
  }

  ghost predicate InOrder(s: State) {
    Shape(s) && forall c | 0 <= c <= MAX_CLIENT :: s.members[c].sent == BySender(s.handled + s.queue, c)
  }

  lemma PostKeepsOrder(s: State, c: nat, msg: Message)
    requires InOrder(s) && IsClient(c) && msg.sender == c
    ensures InOrder(Post(s, c, msg))
  {
    var t := Post(s, c, msg);
    if |s.queue| < CAPACITY {
      forall d | 0 <= d <= MAX_CLIENT ensures t.members[d].sent == BySender(t.handled + t.queue, d) {
        BySenderAppends(s.handled + s.queue, [msg], d);
        assert t.handled + t.queue == (s.handled + s.queue) + [msg];
        assert [msg][..0] == [];
      }
    }
  }

  lemma BeginKeepsOrder(s: State)
    requires InOrder(s) && s.queue != []
    ensures InOrder(Begin(s))
  {
    assert s.handled + [s.queue[0]] + s.queue[1..] == s.handled + s.queue;
  }

  lemma StepKeepsOrder(s: State, a: Action)
    requires InOrder(s) && Enabled(s, a)
    ensures InOrder(Do(s, a))
  {
    match a {
      case Start(c, name) => PostKeepsOrder(s, c, Message(Join, c, name, ""));
      case Send(c) => PostKeepsOrder(s, c, s.members[c].out.msg);
      case Serve => if s.pc.Idle? { BeginKeepsOrder(s); }
      case _ =>
    }
  }

  /** The requests of a client that the server has handled are, in order, the first of those
      the client got into the server's box; the others are the client's requests still in it. */
  lemma RequestsAreHandledInOrder(run: seq<Action>, c: nat)
    requires Legal(Chat(), Init(), run) && IsClient(c)
    ensures var s := After(Chat(), Init(), run);
            && |s.members| == MAX_CLIENT + 1
            && s.members[c].sent == BySender(s.handled, c) + BySender(s.queue, c)
  {
    forall s, a | InOrder(s) && Possible(s, a) ensures InOrder(Next(s, a)) {
      StepKeepsOrder(s, a);
    }
    EveryReachable(InOrder, Init(), run);
    var s := After(Chat(), Init(), run);
    BySenderAppends(s.handled, s.queue, c);
  }

  // ---------------------------------------------------------------- one window between test and send

  /** Posts and takings of requests: how a step would change the number of requests in the
      server's box if the box were unbounded. */
  ghost function Pressure(s: State, a: Action): int {
    if a.Start? || a.Send? then 1 else if a.Serve? && s.pc.Idle? then -1 else 0
  }

  /** Posts, failed ones included, less requests taken during a run. */
  ghost function Net(s: State, run: seq<Action>): int
    decreases |run|
  {
    if run == [] then 0 else Pressure(s, run[0]) + Net(Next(s, run[0]), run[1..])
  }

  /** From no point of the run to its end are more requests taken than posted. */
  ghost predicate NeverSlack(s: State, run: seq<Action>)
    decreases |run|
  {
    run == [] || (Net(s, run) >= 0 && NeverSlack(Next(s, run[0]), run[1..]))
  }

  lemma QueueStep(s: State, a: Action)
    requires Possible(s, a)
    ensures |Next(s, a).queue| ==
            if Pressure(s, a) == 1 && |s.queue| == CAPACITY then CAPACITY else |s.queue| + Pressure(s, a)
  {
    if a.Serve? && s.pc.Idle? {
      assert Begin(s).queue == s.queue[1..];
    }
  }

  /** When the server's box is full after a run. */
  lemma {:induction false} FullExactlyWhen(s: State, run: seq<Action>)
    requires Shape(s) && Legal(Chat(), s, run)
    ensures Shape(After(Chat(), s, run))
    ensures |After(Chat(), s, run).queue| == CAPACITY
            <==> |s.queue| + Net(s, run) >= CAPACITY && NeverSlack(s, run)
    decreases |run|
  {
    if run == [] {
    } else {
      QueueStep(s, run[0]);
      FullExactlyWhen(Next(s, run[0]), run[1..]);
    }
  }

  lemma OthersLeaveClient(s: State, a: Action, c: nat)
    requires Possible(s, a) && IsClient(c) && a != Send(c) && !(a.Start? && a.c == c)
    ensures var m, n := s.members[c], Next(s, a).members[c];
            n.sent == m.sent && n.lost == m.lost && (m.out.Ready? ==> n.out == m.out)
  {
    if a.Serve? && s.pc.Idle? {
      assert Begin(s).members == s.members;
    }
  }

  lemma {:induction false} ClientWaits(s: State, run: seq<Action>, c: nat)
    requires Shape(s) && Legal(Chat(), s, run) && IsClient(c)
    requires s.members[c].out.Ready? && Send(c) !in run
    ensures Shape(After(Chat(), s, run))
    ensures var m, n := s.members[c], After(Chat(), s, run).members[c];
            n.out == m.out && n.sent == m.sent && n.lost == m.lost
    decreases |run|
  {
    if run == [] {
    } else {
      OthersLeaveClient(s, run[0], c);
      ClientWaits(Next(s, run[0]), run[1..], c);
    }
  }

  /** Exactly when a send that follows a passed test loses its request, whatever all other
      threads do in between: if the requests in the box at the test, plus the posts of others,
      less the requests taken, come to the capacity of the box or more, and no last part of the
      window has more taken than posted. Otherwise the request gets in. */
  lemma SendIsLostExactlyWhen(s: State, window: seq<Action>, c: nat)
    requires Shape(s) && Legal(Chat(), s, window) && IsClient(c)
    requires s.members[c].out.Ready? && Send(c) !in window
    ensures var m, t := s.members[c], After(Chat(), s, window);
            && Possible(t, Send(c))
            && var n := Next(t, Send(c)).members[c];
               if |s.queue| + Net(s, window) >= CAPACITY && NeverSlack(s, window)
               then n.lost == m.lost + [m.out.msg] && n.sent == m.sent
               else n.sent == m.sent + [m.out.msg] && n.lost == m.lost
  {
    FullExactlyWhen(s, window);
    ClientWaits(s, window, c);
  }

  lemma {:induction false} NetWithoutPosts(s: State, run: seq<Action>)
    requires forall a | a in run :: !a.Start? && !a.Send?
    ensures Net(s, run) <= 0
    decreases |run|
  {
    if run == [] {
    } else {
      assert run[0] in run;
      NetWithoutPosts(Next(s, run[0]), run[1..]);
    }
  }

  /** As long as no other client posts between a client's test and its send, the send gets
      through, whatever the server and the receiving threads do. */
  lemma UndisturbedSendGetsThrough(s: State, run: seq<Action>, c: nat)
    requires Shape(s) && Legal(Chat(), s, run) && IsClient(c)
    requires s.members[c].out.Ready? && |s.queue| < CAPACITY
    requires forall a | a in run :: !a.Start? && !a.Send?
    ensures var t := After(Chat(), s, run);
            && Possible(t, Send(c))
            && Next(t, Send(c)).members[c].lost == s.members[c].lost
            && Next(t, Send(c)).members[c].sent == s.members[c].sent + [s.members[c].out.msg]
  {
    NetWithoutPosts(s, run);
    SendIsLostExactlyWhen(s, run, c);
  }

  /** Two clients can pass the test on the same last place; the second to send loses its
      request and is not told. */
  lemma TwoTestsOnePlace(s: State, a: nat, b: nat)
    requires Shape(s) && IsClient(a) && IsClient(b) && a != b
    requires s.members[a].out.Wants? && s.members[b].out.Wants?
    requires |s.queue| == CAPACITY - 1
    ensures var run := [Test(a), Test(b), Send(a), Send(b)]; var t := After(Chat(), s, run);
            && Legal(Chat(), s, run) && Shape(t)
            && t.members[b].lost == s.members[b].lost + [s.members[b].out.msg]
            && t.members[b].sent == s.members[b].sent
            && t.members[b].out == if s.members[b].out.msg.kind.Quit? then Off else Free
  {
    var run := Then(s, [], Test(a));
    run := Then(s, run, Test(b));
    run := Then(s, run, Send(a));
    run := Then(s, run, Send(b));
    assert run == [Test(a), Test(b), Send(a), Send(b)];
  }

  // ---------------------------------------------------------------- whole runs

  ghost function SentBy(s: State, a: Action, c: nat): seq<Message> {
    if Possible(s, a) && a == Send(c) then [s.members[c].out.msg] else []
  }

  /** The requests client `c` sends during the run, whatever becomes of them. */
  ghost function Asked(s: State, run: seq<Action>, c: nat): seq<Message> {
    Output(Chat(), Sends(c), s, run)
  }

  ghost function Sends(c: nat): (State, Action) -> seq<Message> {
    (s, a) => SentBy(s, a, c)
  }

  /** A start's JOIN is sent without a test; all else a client sends follows one. */
  ghost function NoJoins(reqs: seq<Message>): seq<Message> {
    if reqs == [] then []
    else NoJoins(reqs[..|reqs| - 1]) + (if reqs[|reqs| - 1].kind.Join? then [] else [reqs[|reqs| - 1]])
  }

  lemma NoJoinsOfOneMore(reqs: seq<Message>, req: Message)
    ensures NoJoins(reqs + [req]) == NoJoins(reqs) + if req.kind.Join? then [] else [req]
  {
    assert (reqs + [req])[..|reqs + [req]| - 1] == reqs;
  }

  lemma {:induction false} NoJoinsAppends(first: seq<Message>, second: seq<Message>)
    ensures NoJoins(first + second) == NoJoins(first) + NoJoins(second)
    decreases |second|
  {
    if second == [] {
      assert first + second == first;
    } else {
      var n := |second| - 1;
      NoJoinsAppends(first, second[..n]);
      NoJoinsOfOneMore(first + second[..n], second[n]);
      assert first + second[..n] + [second[n]] == first + second;
    }
  }

  lemma OwnPost(s: State, a: Action, c: nat, msg: Message)
    requires Possible(s, a) && IsClient(c)
    requires (a == Send(c) && s.members[c].out.msg == msg)
          || (a.Start? && a.c == c && msg == Message(Join, c, a.name, ""))
    ensures var m, n, full := s.members[c], Next(s, a).members[c], |s.queue| == CAPACITY;
            && n.sent == (if full then m.sent else m.sent + [msg])
            && n.lost == (if full then m.lost + [msg] else m.lost)
  {
  }

  /** What a step adds to a client's accepted and lost requests, JOINs left out. */
  lemma PostsOfStep(s: State, a: Action, c: nat)
    requires Possible(s, a) && IsClient(c)
    ensures var m, n := s.members[c], Next(s, a).members[c];
            var sends, full := a == Send(c), |s.queue| == CAPACITY;
            && NoJoins(n.sent) == NoJoins(m.sent) + (if sends && !full then [m.out.msg] else [])
            && NoJoins(n.lost) == NoJoins(m.lost) + (if sends && full then [m.out.msg] else [])
  {
    var m := s.members[c];
    if a == Send(c) {
      OwnPost(s, a, c, m.out.msg);
      NoJoinsOfOneMore(m.sent, m.out.msg);
      NoJoinsOfOneMore(m.lost, m.out.msg);
    } else if a.Start? && a.c == c {
      OwnPost(s, a, c, Message(Join, c, a.name, ""));
      NoJoinsOfOneMore(m.sent, Message(Join, c, a.name, ""));
      NoJoinsOfOneMore(m.lost, Message(Join, c, a.name, ""));
    } else {
      OthersLeaveClient(s, a, c);
    }
  }

  /** The step is no post, or a post while nobody else is between a passed test and its send. */
  ghost predicate Undisturbing(s: State, a: Action) {
    Shape(s) &&
    (a.Start? || a.Send? ==> forall d | 1 <= d <= MAX_CLIENT && d != a.c :: !s.members[d].out.Ready?)
  }

  ghost predicate OneAtATime(run: seq<Action>) {
    Throughout(Chat(), Undisturbing, Init(), run)
  }

  /** Whoever has passed the test still finds room. */
  ghost predicate TestsHold(s: State) {
    Shape(s) && forall d | 1 <= d <= MAX_CLIENT && s.members[d].out.Ready? :: |s.queue| < CAPACITY
  }

  lemma StepKeepsTests(s: State, a: Action)
    requires TestsHold(s) && Possible(s, a) && Undisturbing(s, a)
    ensures TestsHold(Next(s, a))
  {
    if a.Serve? && s.pc.Idle? {
      assert Begin(s).members == s.members;
    }
  }

  ghost function Accepted(s: State, c: nat): seq<Message> {
    if Shape(s) && IsClient(c) then NoJoins(s.members[c].sent) else []
  }

  ghost predicate NoneLost(s: State, c: nat) {
    TestsHold(s) && IsClient(c) && NoJoins(s.members[c].lost) == []
  }

  lemma TestedPost(s: State, a: Action, c: nat)
    requires NoneLost(s, c) && Possible(s, a) && Undisturbing(s, a)
    ensures NoneLost(Next(s, a), c) && Accepted(Next(s, a), c) == Accepted(s, c) + SentBy(s, a, c)
  {
    PostsOfStep(s, a, c);
    StepKeepsTests(s, a);
  }

  lemma NothingTestedIsLost(run: seq<Action>, c: nat)
    requires Legal(Chat(), Init(), run) && OneAtATime(run) && IsClient(c)
    ensures NoneLost(After(Chat(), Init(), run), c)
    ensures Accepted(After(Chat(), Init(), run), c) == Asked(Init(), run, c)
  {
    forall s, a | NoneLost(s, c) && Possible(s, a) && Undisturbing(s, a)
      ensures NoneLost(Next(s, a), c) && Accepted(Next(s, a), c) == Accepted(s, c) + SentBy(s, a, c)
    {
      TestedPost(s, a, c);
    }
    assert Init().members[c].sent == Init().members[c].lost == [];
    RunAppends(Chat(), s => NoneLost(s, c), Undisturbing, Sends(c), s => Accepted(s, c), Init(), run);
  }

  /** Requests get through without loss, repetition or reordering in every run in which no
      client posts between another's test and send: apart from JOINs, which are sent untested,
      those of a client that were handled followed by those still in the box are exactly those
      it sent. */
  lemma RequestsGetThrough(run: seq<Action>, c: nat)
    requires Legal(Chat(), Init(), run) && OneAtATime(run) && IsClient(c)
    ensures var s := After(Chat(), Init(), run);
            && |s.members| == MAX_CLIENT + 1
            && NoJoins(BySender(s.handled, c)) + NoJoins(BySender(s.queue, c)) == Asked(Init(), run, c)
            && NoJoins(s.members[c].lost) == []
  {
    NothingTestedIsLost(run, c);
    HandledAndQueued(run, c);
  }

  lemma HandledAndQueued(run: seq<Action>, c: nat)
    requires Legal(Chat(), Init(), run) && IsClient(c)
    ensures var s := After(Chat(), Init(), run);
            && |s.members| == MAX_CLIENT + 1
            && NoJoins(s.members[c].sent) == NoJoins(BySender(s.handled, c)) + NoJoins(BySender(s.queue, c))
  {
    RequestsAreHandledInOrder(run, c);
    var s := After(Chat(), Init(), run);
    NoJoinsAppends(BySender(s.handled, c), BySender(s.queue, c));
  }

  lemma {:induction false} SentOrLost(s: State, run: seq<Action>, c: nat)
    requires Shape(s) && Legal(Chat(), s, run) && IsClient(c)
    ensures Shape(After(Chat(), s, run))
    ensures var m, n := s.members[c], After(Chat(), s, run).members[c];
            |NoJoins(n.sent)| + |NoJoins(n.lost)| == |NoJoins(m.sent)| + |NoJoins(m.lost)| + |Asked(s, run, c)|
    decreases |run|
  {
    if run == [] {
    } else {
      PostsOfStep(s, run[0], c);
      SentOrLost(Next(s, run[0]), run[1..], c);
    }
  }

  /** In every run at all, what a client sent has been handled, is in the box, or was lost. */
  lemma RequestsAreConserved(run: seq<Action>, c: nat)
    requires Legal(Chat(), Init(), run) && IsClient(c)
    ensures var s := After(Chat(), Init(), run);
            && |s.members| == MAX_CLIENT + 1
            && |Asked(Init(), run, c)|
               == |NoJoins(BySender(s.handled, c))| + |NoJoins(BySender(s.queue, c))| + |NoJoins(s.members[c].lost)|
  {
    SentOrLost(Init(), run, c);
    HandledAndQueued(run, c);
  }
}
