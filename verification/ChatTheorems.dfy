/** What the clients can rely on, over whole runs of the interleaved chat. */
module ChatTheorems {
  import opened ChatSpec
  import opened ChatSystem
  import opened ChatRefinement
  import opened ChatStreams
  import opened Runs

  // ---------------------------------------------------------------- what a stream contains

  /** Stamps rise, and each item is a dispatch numbered `since` to `n - 1` that is addressed to
      `c`, was not dropped, and carries its message. */
  ghost predicate IsOrdered(e: seq<Item>, log: seq<Entry>, c: nat, since: nat, dropped: set<nat>, n: nat)
    requires n <= |log|
  {
    && (forall i, j | 0 <= i < j < |e| :: e[i].stamp < e[j].stamp)
    && (forall i | 0 <= i < |e| ::
          since <= e[i].stamp < n && c in log[e[i].stamp].to && e[i].stamp !in dropped
          && e[i].msg == log[e[i].stamp].msg)
  }

  /** The stream that `Expected` describes, said directly: the dispatches addressed to the
      client and not dropped, in order ... */
  lemma {:induction false} ExpectedIsOrdered(log: seq<Entry>, c: nat, since: nat, dropped: set<nat>, n: nat)
    requires n <= |log|
    ensures IsOrdered(Expected(log, c, since, dropped, n), log, c, since, dropped, n)
    decreases n
  {
    if n <= since {
    } else {
      ExpectedIsOrdered(log, c, since, dropped, n - 1);
      var before, e := Expected(log, c, since, dropped, n - 1), Expected(log, c, since, dropped, n);
      forall i | 0 <= i < |e| ensures if i < |before| then e[i] == before[i] else e[i] == Item(n - 1, log[n - 1].msg) {
      }
    }
  }

  /** ... and all of them. */
  lemma {:induction false} ExpectedHasAll(log: seq<Entry>, c: nat, since: nat, dropped: set<nat>, n: nat, k: nat)
    requires since <= k < n <= |log| && c in log[k].to && k !in dropped
    ensures Item(k, log[k].msg) in Expected(log, c, since, dropped, n)
    decreases n
  {
    var e := Expected(log, c, since, dropped, n);
    if k < n - 1 {
      ExpectedHasAll(log, c, since, dropped, n - 1, k);
    } else {
      assert e[|e| - 1] == Item(k, log[k].msg);
    }
  }

  /** `m`'s stream is exactly the dispatches since its session began that are addressed to it,
      less the dropped ones, in dispatch order. */
  ghost predicate IsFilterOf(m: Member, log: seq<Entry>, c: nat, n: nat)
    requires n <= |log|
  {
    && IsOrdered(Stream(m), log, c, m.since, m.dropped, n)
    && forall k | m.since <= k < n && c in log[k].to && k !in m.dropped :: Item(k, log[k].msg) in Stream(m)
  }

  lemma StreamIsFilter(m: Member, log: seq<Entry>, c: nat, n: nat)
    requires StreamOk(log, c, m, n)
    ensures IsFilterOf(m, log, c, n)
  {
    ExpectedIsOrdered(log, c, m.since, m.dropped, n);
    assert Stream(m) == Expected(log, c, m.since, m.dropped, n);
    forall k | m.since <= k < n && c in log[k].to && k !in m.dropped ensures Item(k, log[k].msg) in Stream(m) {
      ExpectedHasAll(log, c, m.since, m.dropped, n, k);
    }
  }

  /** At every moment of every run, for the dispatches that have come past the client. */
  lemma StreamIsDispatchLog(run: seq<Action>, c: nat)
    requires Legal(Chat(), Init(), run) && IsClient(c)
    ensures var s := After(Chat(), Init(), run);
            Shape(s) && IsFilterOf(s.members[c], s.log, c, Past(s, c))
  {
    StreamOf(run, c);
    var s := After(Chat(), Init(), run);
    StreamIsFilter(s.members[c], s.log, c, Past(s, c));
  }

  lemma LogStepGrows(s: State, a: Action)
    requires Possible(s, a)
    ensures s.log <= Next(s, a).log
  {
  }

  lemma {:induction false} LogGrows(s: State, run: seq<Action>)
    requires Shape(s) && Legal(Chat(), s, run)
    ensures s.log <= After(Chat(), s, run).log
    decreases |run|
  {
    if run == [] {
    } else {
      LogStepGrows(s, run[0]);
      LogGrows(Next(s, run[0]), run[1..]);
    }
  }

  /** A message received is a dispatch of the log, of then and of any later time. */
  lemma ReceivedIsDispatched(run: seq<Action>, more: seq<Action>, c: nat)
    requires Legal(Chat(), Init(), run + more) && IsClient(c)
    ensures Legal(Chat(), Init(), run)
    ensures var s, log := After(Chat(), Init(), run), After(Chat(), Init(), run + more).log;
            && Shape(s)
            && var x := s.members[c].got;
               && (forall i, j | 0 <= i < j < |x| :: x[i].stamp < x[j].stamp)
               && (forall i | 0 <= i < |x| :: x[i].stamp < |log| && x[i].msg == log[x[i].stamp].msg)
  {
    RunsCompose(Chat(), Init(), run, more);
    StreamIsDispatchLog(run, c);
    var s := After(Chat(), Init(), run);
    LogGrows(s, more);
    var x := s.members[c].got;
    assert forall i | 0 <= i < |x| :: x[i] == Stream(s.members[c])[i];
  }

  /** Total order, across sessions and over time: let `a` have received two dispatches by some
      moment and `b` the same two by some later moment, whatever has become of `a`'s session
      until then; they received the same messages, and in the same order. */
  lemma SameOrderForAll(run: seq<Action>, more: seq<Action>, a: nat, b: nat, i: nat, j: nat, k: nat, l: nat)
    requires Legal(Chat(), Init(), run + more) && IsClient(a) && IsClient(b)
    requires var s, t := After(Chat(), Init(), run), After(Chat(), Init(), run + more);
             && Shape(s) && Shape(t)
             && var x, y := s.members[a].got, t.members[b].got;
                && i < |x| && j < |x| && k < |y| && l < |y|
                && x[i].stamp == y[k].stamp && x[j].stamp == y[l].stamp
    ensures var x, y := After(Chat(), Init(), run).members[a].got, After(Chat(), Init(), run + more).members[b].got;
            && (i < j <==> k < l)
            && x[i].msg == y[k].msg && x[j].msg == y[l].msg
  {
    ReceivedIsDispatched(run, more, a);
    assert run + more + [] == run + more;
    ReceivedIsDispatched(run + more, [], b);
  }

  // ---------------------------------------------------------------- conservation

  /** How many of the dispatches `since` to `n - 1` are addressed to `c`. */
  ghost function Offers(log: seq<Entry>, c: nat, since: nat, n: nat): nat
    requires n <= |log|
  {
    if n <= since then 0 else Offers(log, c, since, n - 1) + (if c in log[n - 1].to then 1 else 0)
  }

  lemma {:induction false} ExpectedCounts(log: seq<Entry>, c: nat, since: nat, dropped: set<nat>, n: nat)
    requires n <= |log|
    requires forall k | k in dropped :: since <= k < n && c in log[k].to
    ensures |Expected(log, c, since, dropped, n)| + |dropped| == Offers(log, c, since, n)
    decreases n
  {
    if n <= since {
      assert dropped == {};
    } else {
      var earlier := dropped - {n - 1};
      ExpectedCounts(log, c, since, earlier, n - 1);
      ExpectedOfMoreDrops(log, c, since, earlier, n - 1, n - 1);
      if n - 1 in dropped {
        assert earlier + {n - 1} == dropped;
      } else {
        assert earlier == dropped;
      }
    }
  }

  /** Offered to a client during its session = received + pending + dropped; nothing that is
      dropped is a LIST reply. */
  lemma Conservation(run: seq<Action>, c: nat)
    requires Legal(Chat(), Init(), run) && IsClient(c)
    ensures var s := After(Chat(), Init(), run);
            && Shape(s)
            && var m := s.members[c];
               && Offers(s.log, c, m.since, Past(s, c)) == |m.got| + |m.box| + |m.dropped|
               && forall k | k in m.dropped :: k < |s.log| && !s.log[k].via.Reply?
  {
    StreamOf(run, c);
    var s := After(Chat(), Init(), run);
    ExpectedCounts(s.log, c, s.members[c].since, s.members[c].dropped, Past(s, c));
  }

  /** The dispatches of its present session that have been offered to `c` so far. */
  ghost function OfferCount(s: State, c: nat): nat
    requires Inv(s) && IsClient(c)
  {
    Offers(s.log, c, s.members[c].since, Past(s, c))
  }

  /** The step offers `c` a message: its turn in a broadcast, a reply, or a whisper to it. */
  ghost predicate OffersTo(s: State, a: Action, c: nat)
    requires Possible(s, a) && IsClient(c)
  {
    a.Serve? &&
    match s.pc
    case Casting(i, _) => i == c && s.room[c].live
    case Listing(i, req, tested) => i <= MAX_CLIENT && s.room[i].live && i != c && tested && req.sender == c
    case Whispering(to, _, tested) => tested && to == c
    case _ => false
  }

  lemma InvCounts(s: State, c: nat)
    requires Inv(s) && IsClient(c)
    ensures OfferCount(s, c) == |Stream(s.members[c])| + |s.members[c].dropped|
  {
    ExpectedCounts(s.log, c, s.members[c].since, s.members[c].dropped, Past(s, c));
  }

  lemma ServeOffers(s: State, c: nat)
    requires Inv(s) && Possible(s, Serve) && IsClient(c)
    ensures var m, n := s.members[c], Next(s, Serve).members[c];
            && (!OffersTo(s, Serve, c) ==> n == m)
            && (OffersTo(s, Serve, c) ==> exists msg :: n == Offered(m, Item(Past(s, c), msg)))
  {
    var n := Next(s, Serve).members[c];
    match s.pc {
      case Idle => assert Begin(s).members == s.members;
      case Casting(i, msg) => assert i == c && s.room[i].live ==> n == Offered(s.members[c], Item(Past(s, c), msg));
      case Listing(i, req, _) =>
        assert OffersTo(s, Serve, c) ==> n == Offered(s.members[c], Item(Past(s, c), ListReply(s.room, req, i)));
      case Whispering(_, msg, _) =>
        assert OffersTo(s, Serve, c) ==> n == Offered(s.members[c], Item(Past(s, c), msg));
    }
  }

  lemma OthersLeaveStream(s: State, a: Action, c: nat)
    requires Possible(s, a) && !a.Serve? && IsClient(c) && !(a.Start? && a.c == c)
    ensures var m, n := s.members[c], Next(s, a).members[c];
            n.since == m.since && n.dropped == m.dropped && Stream(n) == Stream(m)
  {
    if a.Receive? && a.c == c {
      var m := s.members[c];
      assert m.got + [m.box[0]] + m.box[1..] == m.got + m.box;
    }
  }

  /** A step changes what `c` has dropped by nothing, or by the one message it is offered. */
  lemma StepOfStream(s: State, a: Action, c: nat)
    requires Inv(s) && Possible(s, a) && IsClient(c) && !(a.Start? && a.c == c)
    ensures var m, n := s.members[c], Next(s, a).members[c];
            && n.since == m.since
            && (OffersTo(s, a, c) && Full(m) ==>
                  n.dropped == m.dropped + {Past(s, c)} && Past(s, c) !in m.dropped && Stream(n) == Stream(m))
            && (OffersTo(s, a, c) && !Full(m) ==> n.dropped == m.dropped && |Stream(n)| == |Stream(m)| + 1)
            && (!OffersTo(s, a, c) ==> n.dropped == m.dropped && Stream(n) == Stream(m))
  {
    if a.Serve? {
      ServeOffers(s, c);
      assert StreamOk(s.log, c, s.members[c], Past(s, c));
    } else {
      OthersLeaveStream(s, a, c);
    }
  }

  /** Exactly when a message is dropped: when it is offered and the box is full. A step offers
      a message exactly if one more dispatch addressed to the client has come past it. */
  lemma DropMeansFull(s: State, a: Action, c: nat)
    requires Inv(s) && Possible(s, a) && IsClient(c) && !(a.Start? && a.c == c)
    ensures Inv(Next(s, a))
    ensures OffersTo(s, a, c) <==> OfferCount(Next(s, a), c) == OfferCount(s, c) + 1
    ensures !OffersTo(s, a, c) <==> OfferCount(Next(s, a), c) == OfferCount(s, c)
    ensures s.members[c].dropped <= Next(s, a).members[c].dropped
    ensures s.members[c].dropped != Next(s, a).members[c].dropped <==> OffersTo(s, a, c) && Full(s.members[c])
  {
    StepKeeps(s, a);
    StepOfStream(s, a, c);
    InvCounts(s, c);
    InvCounts(Next(s, a), c);
  }

  /** The box of `c` is never full at an offer. */
  ghost predicate NeverFullAtOffer(s: State, run: seq<Action>, c: nat)
    requires Shape(s) && Legal(Chat(), s, run) && IsClient(c)
    decreases |run|
  {
    run == [] ||
    ((OffersTo(s, run[0], c) ==> !Full(s.members[c])) && NeverFullAtOffer(Next(s, run[0]), run[1..], c))
  }

  lemma {:induction false} NoDropExactlyWhen(s: State, run: seq<Action>, c: nat)
    requires Inv(s) && Legal(Chat(), s, run) && IsClient(c)
    requires forall a | a in run :: !(a.Start? && a.c == c)
    ensures Inv(After(Chat(), s, run))
    ensures s.members[c].dropped <= After(Chat(), s, run).members[c].dropped
    ensures After(Chat(), s, run).members[c].since == s.members[c].since
    ensures s.members[c].dropped == After(Chat(), s, run).members[c].dropped <==> NeverFullAtOffer(s, run, c)
    decreases |run|
  {
    if run == [] {
    } else {
      DropMeansFull(s, run[0], c);
      StepOfStream(s, run[0], c);
      NoDropExactlyWhen(Next(s, run[0]), run[1..], c);
    }
  }

  /** At every moment of a client's stay, that is since its start or any later moment at which
      nothing was dropped yet: it has got every dispatch of its session addressed to it,
      exactly once and in order, if and only if its box was never full at an offer. */
  lemma NothingIsMissed(run: seq<Action>, stay: seq<Action>, c: nat)
    requires Legal(Chat(), Init(), run) && Legal(Chat(), After(Chat(), Init(), run), stay) && IsClient(c)
    requires var s := After(Chat(), Init(), run); Shape(s) && s.members[c].dropped == {}
    requires forall a | a in stay :: !(a.Start? && a.c == c)
    ensures var s := After(Chat(), Init(), run); var t := After(Chat(), s, stay);
            && Inv(t)
            && var e, since, n := Stream(t.members[c]), s.members[c].since, Past(t, c);
               && (forall i, j | 0 <= i < j < |e| :: e[i].stamp < e[j].stamp)
               && (forall i | 0 <= i < |e| :: e[i].stamp < n && e[i].msg == t.log[e[i].stamp].msg)
               && (NeverFullAtOffer(s, stay, c)
                   <==> forall k | since <= k < n && c in t.log[k].to :: Item(k, t.log[k].msg) in e)
               && (NeverFullAtOffer(s, stay, c) <==> |e| == Offers(t.log, c, since, n))
  {
    StreamsAlwaysOk(run);
    var s := After(Chat(), Init(), run);
    var t := After(Chat(), s, stay);
    NoDropExactlyWhen(s, stay, c);
    InvCounts(t, c);
    var m := t.members[c];
    assert StreamOk(t.log, c, m, Past(t, c));
    StreamIsFilter(m, t.log, c, Past(t, c));
    if m.dropped != {} {
      var k :| k in m.dropped;
      assert Item(k, t.log[k].msg) !in Stream(m);
    }
  }

  // ---------------------------------------------------------------- LIST

  lemma {:induction false} ExpectedTail(log: seq<Entry>, c: nat, since: nat, dropped: set<nat>, base: nat, n: nat)
    requires since <= base <= n <= |log|
    requires forall k | base <= k < n :: c in log[k].to && k !in dropped
    ensures var e := Expected(log, c, since, dropped, n);
            && |e| >= n - base
            && forall k | base <= k < n :: e[|e| - n + k] == Item(k, log[k].msg)
    decreases n
  {
    if n <= base {
    } else {
      ExpectedTail(log, c, since, dropped, base, n - 1);
      var before, e := Expected(log, c, since, dropped, n - 1), Expected(log, c, since, dropped, n);
      assert e == before + [Item(n - 1, log[n - 1].msg)];
      forall k | base <= k < n ensures e[|e| - n + k] == Item(k, log[k].msg) {
        if k < n - 1 {
          assert before[|before| - (n - 1) + k] == Item(k, log[k].msg);
        }
      }
    }
  }

  /** The last request handled is the LIST `req`; the requester's session began before it. */
  ghost predicate JustListed(s: State, front: seq<Message>, req: Message) {
    && Shape(s) && s.pc.Idle? && s.handled == front + [req]
    && AllFromClients(front) && IsClient(req.sender) && req.kind.List?
    && s.members[req.sender].since <= |LogAfter(front)|
  }

  lemma ListWasDispatched(run: seq<Action>, front: seq<Message>, req: Message)
    requires Legal(Chat(), Init(), run) && JustListed(After(Chat(), Init(), run), front, req)
    ensures var s, replies := After(Chat(), Init(), run), Dispatches(RoomAfter(front), req);
            && s.log == LogAfter(front) + replies
            && forall k | 0 <= k < |replies| :: replies[k].via.Reply? && replies[k].to == {req.sender}
  {
    ServerRefinesSpec(run);
    SpecOfOneMore(front, req);
    var ids := RepliesEnumerateOthers(RoomAfter(front), req, MAX_CLIENT + 1);
  }

  /** When a LIST has been handled, the requester's stream ends with exactly the replies, in
      order of id and none dropped, however it was reading meanwhile ... */
  lemma ListReplyArrives(run: seq<Action>, front: seq<Message>, req: Message)
    requires Legal(Chat(), Init(), run) && JustListed(After(Chat(), Init(), run), front, req)
    ensures var e := Stream(After(Chat(), Init(), run).members[req.sender]);
            EndsWith(e, Dispatches(RoomAfter(front), req), |LogAfter(front)|)
  {
    StreamOf(run, req.sender);
    ListWasDispatched(run, front, req);
    var s := After(Chat(), Init(), run);
    RepliesAreTheTail(s.log, req.sender, s.members[req.sender], LogAfter(front), Dispatches(RoomAfter(front), req));
  }

  /** The stream ends with the messages of `replies`, stamped from `base` on. */
  ghost predicate EndsWith(e: seq<Item>, replies: seq<Entry>, base: nat) {
    && |e| >= |replies|
    && forall k | 0 <= k < |replies| :: e[|e| - |replies| + k] == Item(base + k, replies[k].msg)
  }

  lemma RepliesAreTheTail(log: seq<Entry>, c: nat, m: Member, before: seq<Entry>, replies: seq<Entry>)
    requires StreamOk(log, c, m, |log|) && log == before + replies && m.since <= |before|
    requires forall k | 0 <= k < |replies| :: replies[k].via.Reply? && replies[k].to == {c}
    ensures EndsWith(Stream(m), replies, |before|)
  {
    var base := |before|;
    assert forall k | base <= k < |log| :: log[k] == replies[k - base];
    ExpectedTail(log, c, m.since, m.dropped, base, |log|);
    var e := Stream(m);
    forall k | 0 <= k < |replies| ensures e[|e| - |replies| + k] == Item(base + k, replies[k].msg) {
      assert log[base + k] == replies[k];
    }
  }

  /** ... and nobody else's stream has any of it. */
  lemma ListReplyIsForRequesterAlone(run: seq<Action>, front: seq<Message>, req: Message, d: nat)
    requires Legal(Chat(), Init(), run) && JustListed(After(Chat(), Init(), run), front, req)
    requires IsClient(d) && d != req.sender
    ensures var e := Stream(After(Chat(), Init(), run).members[d]);
            forall i | 0 <= i < |e| :: e[i].stamp < |LogAfter(front)|
  {
    StreamOf(run, d);
    ListWasDispatched(run, front, req);
    var s := After(Chat(), Init(), run);
    NothingForOthers(s.log, d, s.members[d], LogAfter(front), Dispatches(RoomAfter(front), req));
  }

  lemma NothingForOthers(log: seq<Entry>, d: nat, m: Member, before: seq<Entry>, replies: seq<Entry>)
    requires StreamOk(log, d, m, |log|) && log == before + replies
    requires forall k | 0 <= k < |replies| :: d !in replies[k].to
    ensures forall i | 0 <= i < |Stream(m)| :: Stream(m)[i].stamp < |before|
  {
    StreamIsFilter(m, log, d, |log|);
    forall k | |before| <= k < |log| ensures d !in log[k].to {
      assert log[k] == replies[k - |before|];
    }
  }

  /** The `h`-th request is a LIST in progress whose requester's box had at most 28 messages
      at its start. */
  ghost predicate ListHasRoom(s: State, h: nat) {
    && Shape(s) && |s.handled| >= h
    && (|s.handled| == h && s.pc.Listing? ==>
          |s.members[s.pc.req.sender].box| <= 28 + |Replies(s.room, s.pc.req, s.pc.i)|)
  }

  lemma ServeKeepsListRoom(s: State, h: nat)
    requires ListHasRoom(s, h) && Possible(s, Serve)
    ensures ListHasRoom(Next(s, Serve), h)
  {
    match s.pc {
      case Idle => assert |Begin(s).handled| == |s.handled| + 1;
      case Listing(i, req, _) =>
        if i <= MAX_CLIENT {
          var more := if s.room[i].live && i != req.sender then 1 else 0;
          assert |Replies(s.room, req, i + 1)| == |Replies(s.room, req, i)| + more;
        }
      case _ =>
    }
  }

  lemma StepKeepsListRoom(s: State, a: Action, h: nat)
    requires ListHasRoom(s, h) && Possible(s, a)
    ensures ListHasRoom(Next(s, a), h)
  {
    if a.Serve? {
      ServeKeepsListRoom(s, h);
    } else {
      OthersKeepServer(s, a);
    }
  }

  /** 99 replies and 28 pending messages are 127: with no more than 28 pending at its start, a
      LIST never finds the requester's box full where it tests it. */
  lemma ListNeverWaits(s: State, run: seq<Action>)
    requires Shape(s) && s.pc.Listing? && s.pc.i == 1 && |s.members[s.pc.req.sender].box| <= 28
    requires Legal(Chat(), s, run)
    ensures var t := After(Chat(), s, run);
            && Shape(t)
            && (|t.handled| == |s.handled| && t.pc.Listing? && t.pc.i <= MAX_CLIENT
                && t.room[t.pc.i].live && t.pc.i != t.pc.req.sender
                ==> !Full(t.members[t.pc.req.sender]))
  {
    var h := |s.handled|;
    forall u, a | ListHasRoom(u, h) && Possible(u, a) ensures ListHasRoom(Next(u, a), h) {
      StepKeepsListRoom(u, a, h);
    }
    EveryReachable(u => ListHasRoom(u, h), s, run);
    var t := After(Chat(), s, run);
    if t.pc.Listing? && t.pc.i <= MAX_CLIENT && t.pc.i != t.pc.req.sender {
      var ids := RepliesEnumerateOthers(t.room, t.pc.req, t.pc.i);
    }
  }

  // ---------------------------------------------------------------- the registry and WHISPER

  /** At every moment of every run, a client is in the room exactly if the last JOIN or QUIT of
      it that the server has taken was a JOIN, and is registered under the name of its last
      JOIN. */
  lemma RegistryFollowsRequests(run: seq<Action>, c: nat)
    requires Legal(Chat(), Init(), run) && IsClient(c)
    ensures var s := After(Chat(), Init(), run);
            && (s.room[c].live <==> exists k: nat :: LastMove(s.handled, c, k) && s.handled[k].kind.Join?)
            && (forall k: nat | LastJoin(s.handled, c, k) :: s.room[c].owner == s.handled[k].name)
  {
    ServerRefinesSpec(run);
    var s := After(Chat(), Init(), run);
    InRoomMeansJoined(s.handled, c);
    RegisteredNameIsLastJoined(s.handled, c);
  }

  /** A whisper the server takes up, meant for the client `w` who is in the room under that
      name, is on its way to `w` exactly if no lower id has or left that name. It carries the
      name under which its sender last joined, whatever name the request carried. */
  lemma WhisperIsRoutedIff(run: seq<Action>, w: nat, k: nat)
    requires Legal(Chat(), Init(), run) && IsClient(w)
    requires var s := After(Chat(), Init(), run);
             && Shape(s) && s.pc.Idle? && s.queue != [] && s.queue[0].kind.Whisper?
             && s.room[w].live && s.room[w].owner == s.queue[0].name
             && LastJoin(s.handled, s.queue[0].sender, k)
    ensures var s := After(Chat(), Init(), run); var req, t := s.queue[0], Next(s, Serve);
            t.pc == Whispering(w, req.(name := s.handled[k].name), false)
            <==> forall i | 1 <= i < w :: s.room[i].owner != req.name
  {
    var s := After(Chat(), Init(), run);
    RegistryFollowsRequests(run, s.queue[0].sender);
    assert s.room[s.queue[0].sender].owner == s.handled[k].name;
    BeginRoutesIff(s, w);
  }

  lemma BeginRoutesIff(s: State, w: nat)
    requires Shape(s) && s.pc.Idle? && s.queue != [] && s.queue[0].kind.Whisper?
    requires IsClient(w) && s.room[w].live && s.room[w].owner == s.queue[0].name
    ensures var req := s.queue[0];
            Next(s, Serve).pc == Whispering(w, req.(name := s.room[req.sender].owner), false)
            <==> forall i | 1 <= i < w :: s.room[i].owner != req.name
  {
    var first := FirstOwner(s.room, s.queue[0].name, 1);
    assert first <= w;
    assert Next(s, Serve).pc.Whispering? ==> Next(s, Serve).pc.to == first;
  }

  /** In every run, a box that the server has found to have room still has it when the server
      sends: the unchecked return codes after the two waits hide nothing about that box. */
  lemma TestedBoxKeepsRoom(run: seq<Action>)
    requires Legal(Chat(), Init(), run)
    ensures var s := After(Chat(), Init(), run);
            && Shape(s)
            && (s.pc.Listing? && s.pc.tested ==> !Full(s.members[s.pc.req.sender]))
            && (s.pc.Whispering? && s.pc.tested ==> !Full(s.members[s.pc.msg.sender]))
  {
    StreamsAlwaysOk(run);
  }

  /** The server waits for room in the whisperer's own box, not in the receiver's: after the
      wait, the whisper is dropped exactly if the receiver's box is full, and otherwise it
      becomes the last message in that box; every other box stays as it is. */
  lemma WhisperDropsExactlyOnFullReceiver(s: State)
    requires Inv(s) && s.pc.Whispering? && s.pc.tested
    ensures var to, t := s.pc.to, Next(s, Serve); var item := Item(|s.log|, s.pc.msg);
            && (item.stamp in t.members[to].dropped <==> Full(s.members[to]))
            && (item in Stream(t.members[to]) <==> !Full(s.members[to]))
            && (!Full(s.members[to]) ==> t.members[to].box == s.members[to].box + [item])
            && forall d: nat | IsClient(d) && d != to :: t.members[d] == s.members[d]
  {
    var to := s.pc.to;
    var m, item := s.members[to], Item(|s.log|, s.pc.msg);
    assert StreamOk(s.log, to, m, |s.log|);
    StreamIsFilter(m, s.log, to, |s.log|);
    assert item !in Stream(m) by {
      assert forall i | 0 <= i < |Stream(m)| :: Stream(m)[i].stamp < |s.log|;
    }
    var t := Next(s, Serve);
    if !Full(m) {
      assert Stream(t.members[to])[|Stream(m)|] == item;
    }
  }
}
