/** The interleaved server refines the sequential one: whatever the other threads do meanwhile,
    its room and its dispatch log are those of handling the same requests one by one. */
module ChatRefinement {
  import opened ChatSpec
  import opened ChatSystem
  import opened Runs

  lemma SpecOfOneMore(reqs: seq<Message>, req: Message)
    requires AllFromClients(reqs) && IsClient(req.sender)
    ensures AllFromClients(reqs + [req])
    ensures RoomAfter(reqs + [req]) == NextRoom(RoomAfter(reqs), req)
    ensures LogAfter(reqs + [req]) == LogAfter(reqs) + Dispatches(RoomAfter(reqs), req)
  {
    assert (reqs + [req])[..|reqs + [req]| - 1] == reqs;
  }

  lemma {:induction false} RepliesGrow(r: Room, req: Message, i: nat, j: nat)
    requires i <= j <= MAX_CLIENT + 1
    ensures Replies(r, req, i) <= Replies(r, req, j)
    decreases j
  {
    if i == j || j == 1 {
    } else {
      RepliesGrow(r, req, i, j - 1);
    }
  }

  /** How far the log of the present request has got. */
  ghost predicate MatchesSpec(room: Room, pc: Pc, log: seq<Entry>, handled: seq<Message>)
    requires AllFromClients(handled)
  {
    && room == RoomAfter(handled)
    && match pc
       case Idle => log == LogAfter(handled)
       case Undefined => log == LogAfter(handled)
       case Casting(_, msg) =>
         log == LogAfter(handled) && log != [] && log[|log| - 1] == Entry(ToAll, msg, LiveSet(room))
       case Listing(i, req, _) =>
         && handled != [] && handled[|handled| - 1] == req && req.kind.List? && i <= MAX_CLIENT + 1
         && log == LogAfter(handled[..|handled| - 1]) + Replies(room, req, i)
       case Whispering(to, msg, _) =>
         to <= MAX_CLIENT && room[to].live && log + [Entry(Private, msg, {to})] == LogAfter(handled)
  }

  ghost predicate Matches(s: State) {
    Shape(s) && MatchesSpec(s.room, s.pc, s.log, s.handled)
  }

  /** Entering a case does what the case calls for, or leaves exactly that to be done. */
  lemma BeginFollowsSpec(s: State)
    requires Shape(s) && s.queue != []
    requires s.pc.Idle?
    ensures var req, t := s.queue[0], Begin(s);
            && t.room == NextRoom(s.room, req)
            && t.handled == s.handled + [req]
            && match t.pc
               case Listing(i, r, _) => i == 1 && r == req && req.kind.List? && t.log == s.log
               case Whispering(to, msg, _) =>
                 t.room[to].live && t.log == s.log && Dispatches(s.room, req) == [Entry(Private, msg, {to})]
               case Casting(_, msg) =>
                 t.log == s.log + Dispatches(s.room, req) && t.log[|t.log| - 1] == Entry(ToAll, msg, LiveSet(t.room))
               case _ => t.log == s.log && Dispatches(s.room, req) == []
  {
  }

  lemma BeginMatches(s: State)
    requires Matches(s) && s.pc.Idle? && s.queue != []
    ensures Matches(Begin(s))
  {
    var req, t := s.queue[0], Begin(s);
    BeginFollowsSpec(s);
    SpecOfOneMore(s.handled, req);
    assert t.handled[..|t.handled| - 1] == s.handled;
    assert s.log + [] == s.log;
    if t.pc.Listing? {
      assert Replies(t.room, req, 1) == [];
    }
  }

  lemma ListIsDone(room: Room, req: Message, log: seq<Entry>, handled: seq<Message>)
    requires AllFromClients(handled) && MatchesSpec(room, Listing(MAX_CLIENT + 1, req, false), log, handled)
    ensures MatchesSpec(room, Idle, log, handled)
  {
    var n := |handled| - 1;
    SpecOfOneMore(handled[..n], req);
    assert handled[..n] + [req] == handled;
  }

  lemma OneReplyMore(room: Room, req: Message, i: nat, log: seq<Entry>, handled: seq<Message>, more: seq<Entry>)
    requires AllFromClients(handled) && 1 <= i <= MAX_CLIENT
    requires MatchesSpec(room, Listing(i, req, false), log, handled)
    requires more == if room[i].live && i != req.sender
                     then [Entry(Reply, ListReply(room, req, i), {req.sender})] else []
    ensures MatchesSpec(room, Listing(i + 1, req, false), log + more, handled)
  {
    var before := LogAfter(handled[..|handled| - 1]);
    assert Replies(room, req, i + 1) == Replies(room, req, i) + more;
    assert before + Replies(room, req, i) + more == before + (Replies(room, req, i) + more);
  }

  lemma ReplyMatches(s: State)
    requires Matches(s) && s.pc.Listing?
    ensures Matches(Reply1(s))
  {
    var t := Reply1(s);
    var Listing(i, req, tested) := s.pc;
    assert t.room == s.room && t.handled == s.handled;
    if i > MAX_CLIENT {
      ListIsDone(s.room, req, s.log, s.handled);
    } else if !s.room[i].live || i == req.sender {
      OneReplyMore(s.room, req, i, s.log, s.handled, []);
      assert t.pc == Listing(i + 1, req, false) && t.log == s.log + [];
    } else if !tested {
      assert t.pc.Listing? && t.pc.i == i && t.pc.req == req && t.log == s.log;
    } else {
      var e := Entry(Reply, ListReply(s.room, req, i), {req.sender});
      OneReplyMore(s.room, req, i, s.log, s.handled, [e]);
      assert t.pc == Listing(i + 1, req, false) && t.log == s.log + [e];
    }
  }

  lemma OthersKeepServer(s: State, a: Action)
    requires Shape(s) && Enabled(s, a) && !a.Serve?
    ensures var t := Do(s, a); t.room == s.room && t.pc == s.pc && t.log == s.log && t.handled == s.handled
  {
  }

  lemma StepMatches(s: State, a: Action)
    requires Matches(s) && Enabled(s, a)
    ensures Matches(Do(s, a))
  {
    if !a.Serve? {
      OthersKeepServer(s, a);
    } else {
      match s.pc {
        case Idle => BeginMatches(s);
        case Listing(_, _, _) => ReplyMatches(s);
        case _ =>
      }
    }
  }

  lemma AlwaysMatches(run: seq<Action>)
    requires Legal(Chat(), Init(), run)
    ensures Matches(After(Chat(), Init(), run))
  {
    forall s, a | Matches(s) && Possible(s, a) ensures Matches(Next(s, a)) {
      StepMatches(s, a);
    }
    EveryReachable(Matches, Init(), run);
  }

  /** At every moment the room is that of the requests taken so far and the log is a prefix of
      what they call for; between two requests it is all of it. */
  lemma ServerRefinesSpec(run: seq<Action>)
    requires Legal(Chat(), Init(), run)
    ensures var s := After(Chat(), Init(), run);
            && AllFromClients(s.handled)
            && s.room == RoomAfter(s.handled)
            && s.log <= LogAfter(s.handled)
            && (s.pc.Idle? ==> s.log == LogAfter(s.handled))
  {
    AlwaysMatches(run);
    LogIsPrefix(After(Chat(), Init(), run));
  }

  lemma LogIsPrefix(s: State)
    requires Matches(s)
    ensures s.log <= LogAfter(s.handled)
  {
    if s.pc.Listing? {
      var front := s.handled[..|s.handled| - 1];
      assert front + [s.pc.req] == s.handled;
      RepliesGrow(s.room, s.pc.req, s.pc.i, MAX_CLIENT + 1);
      SpecOfOneMore(front, s.pc.req);
    }
  }
}
