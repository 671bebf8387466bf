/** What each client gets. Its stream, the messages it has received and then those in its box,
    is at every moment the dispatches addressed to it since its session began, in dispatch
    order, less those dropped on its full box. */
module ChatStreams {
  import opened ChatSpec
  import opened ChatSystem
  import opened Runs

  /** The dispatches numbered `since` to `n - 1` addressed to `c`, less those in `dropped`. */
  ghost function Expected(log: seq<Entry>, c: nat, since: nat, dropped: set<nat>, n: nat): seq<Item>
    requires n <= |log|
  {
    if n <= since then []
    else Expected(log, c, since, dropped, n - 1)
         + (if c in log[n - 1].to && n - 1 !in dropped then [Item(n - 1, log[n - 1].msg)] else [])
  }

  ghost predicate StreamOk(log: seq<Entry>, c: nat, m: Member, n: nat) {
    && n <= |log|
    && Stream(m) == Expected(log, c, m.since, m.dropped, n)
    && forall k | k in m.dropped :: m.since <= k < n && c in log[k].to && !log[k].via.Reply?
  }

  /** The server never finds a box full after having tested it. */
  ghost predicate TestHolds(s: State)
    requires Shape(s)
  {
    match s.pc
    case Listing(_, req, tested) => tested ==> !Full(s.members[req.sender])
    case Whispering(_, msg, tested) => tested ==> !Full(s.members[msg.sender])
    case _ => true
  }

  ghost predicate CastOk(s: State)
    requires Shape(s)
  {
    s.pc.Casting? ==>
      && s.log[|s.log| - 1] == Entry(ToAll, s.pc.msg, LiveSet(s.room))
      && forall c | s.pc.i <= c <= MAX_CLIENT && s.room[c].live :: s.members[c].since < |s.log|
  }

  ghost predicate Inv(s: State) {
    && Shape(s) && TestHolds(s) && CastOk(s)
    && forall c | 0 <= c <= MAX_CLIENT ::
         s.members[c].since <= |s.log| && StreamOk(s.log, c, s.members[c], Past(s, c))
  }

  // ---------------------------------------------------------------- the pieces of a step

  lemma {:induction false} ExpectedOfLonger(
      log: seq<Entry>, more: seq<Entry>, c: nat, since: nat, dropped: set<nat>, n: nat)
    requires n <= |log|
    ensures Expected(log + more, c, since, dropped, n) == Expected(log, c, since, dropped, n)
    decreases n
  {
    if n <= since {
    } else {
      ExpectedOfLonger(log, more, c, since, dropped, n - 1);
    }
  }

  lemma {:induction false} ExpectedOfMoreDrops(
      log: seq<Entry>, c: nat, since: nat, dropped: set<nat>, late: nat, n: nat)
    requires n <= |log| && n <= late
    ensures Expected(log, c, since, dropped + {late}, n) == Expected(log, c, since, dropped, n)
    decreases n
  {
    if n <= since {
    } else {
      ExpectedOfMoreDrops(log, c, since, dropped, late, n - 1);
    }
  }

  lemma LongerLogKeeps(log: seq<Entry>, more: seq<Entry>, c: nat, m: Member, n: nat)
    requires StreamOk(log, c, m, n)
    ensures StreamOk(log + more, c, m, n)
  {
    ExpectedOfLonger(log, more, c, m.since, m.dropped, n);
  }

  lemma PassingKeeps(log: seq<Entry>, c: nat, m: Member, n: nat)
    requires StreamOk(log, c, m, n) && n < |log| && c !in log[n].to
    ensures StreamOk(log, c, m, n + 1)
  {
    if n >= m.since {
      assert Stream(m) + [] == Stream(m);
    }
  }

  lemma OfferKeeps(log: seq<Entry>, c: nat, m: Member, n: nat)
    requires StreamOk(log, c, m, n) && m.since <= n < |log| && c in log[n].to
    requires log[n].via.Reply? ==> !Full(m)
    ensures StreamOk(log, c, Offered(m, Item(n, log[n].msg)), n + 1)
  {
    var item := Item(n, log[n].msg);
    if Full(m) {
      ExpectedOfMoreDrops(log, c, m.since, m.dropped, n, n);
      assert Stream(m) + [] == Stream(m);
    } else {
      assert n !in m.dropped;
      assert m.got + (m.box + [item]) == Stream(m) + [item];
    }
  }

  /** The log grows by a dispatch to one client, who is offered it at once. */
  lemma SingleDispatch(s: State, t: State, e: Entry, c: nat)
    requires Inv(s) && Shape(t) && IsClient(c) && !s.pc.Casting? && !t.pc.Casting?
    requires t.log == s.log + [e] && e.to == {c} && (e.via.Reply? ==> !Full(s.members[c]))
    requires t.members == s.members[c := Offered(s.members[c], Item(|s.log|, e.msg))]
    ensures forall d | 0 <= d <= MAX_CLIENT ::
              t.members[d].since <= |t.log| && StreamOk(t.log, d, t.members[d], Past(t, d))
  {
    forall d | 0 <= d <= MAX_CLIENT
      ensures t.members[d].since <= |t.log| && StreamOk(t.log, d, t.members[d], Past(t, d))
    {
      LongerLogKeeps(s.log, [e], d, s.members[d], |s.log|);
      if d == c {
        OfferKeeps(t.log, c, s.members[c], |s.log|);
      } else {
        PassingKeeps(t.log, d, s.members[d], |s.log|);
      }
    }
  }

  // ---------------------------------------------------------------- steps

  lemma BeginKeeps(s: State)
    requires Inv(s) && s.pc.Idle? && s.queue != []
    ensures Inv(Begin(s))
  {
    var t := Begin(s);
    if t.pc.Casting? {
      var e := t.log[|s.log|];
      assert t.log == s.log + [e] && 0 !in e.to;
      forall d | 0 <= d <= MAX_CLIENT ensures StreamOk(t.log, d, t.members[d], Past(t, d)) {
        LongerLogKeeps(s.log, [e], d, s.members[d], |s.log|);
        if d == 0 {
          PassingKeeps(t.log, d, s.members[d], |s.log|);
        }
      }
    } else {
      assert t.log == s.log && t.members == s.members;
    }
  }

  lemma CastKeeps(s: State)
    requires Inv(s) && s.pc.Casting?
    ensures Inv(Cast(s))
  {
    var t, i, n := Cast(s), s.pc.i, |s.log| - 1;
    assert t.log == s.log && t.room == s.room;
    forall d | 0 <= d <= MAX_CLIENT ensures StreamOk(t.log, d, t.members[d], Past(t, d)) {
      if d == i {
        if s.room[i].live {
          OfferKeeps(s.log, i, s.members[i], n);
        } else {
          PassingKeeps(s.log, i, s.members[i], n);
        }
      } else {
        assert t.members[d] == s.members[d] && Past(t, d) == Past(s, d);
      }
    }
  }

  lemma ReplyKeeps(s: State)
    requires Inv(s) && s.pc.Listing?
    ensures Inv(Reply1(s))
  {
    var t := Reply1(s);
    var Listing(i, req, tested) := s.pc;
    if t.log != s.log {
      var msg := ListReply(s.room, req, i);
      SingleDispatch(s, t, Entry(Reply, msg, {req.sender}), req.sender);
    } else {
      assert t.members == s.members;
    }
  }

  lemma DeliverKeeps(s: State)
    requires Inv(s) && s.pc.Whispering?
    ensures Inv(Deliver(s))
  {
    var t := Deliver(s);
    var Whispering(to, msg, tested) := s.pc;
    if tested {
      SingleDispatch(s, t, Entry(Private, msg, {to}), to);
    } else {
      assert t.members == s.members;
    }
  }

  /** A step of client `c` that leaves its stream alone or starts it afresh, and makes no room
      scarcer. */
  lemma ClientStepKeeps(s: State, t: State, c: nat)
    requires Inv(s) && Shape(t) && IsClient(c)
    requires t.room == s.room && t.pc == s.pc && t.log == s.log
    requires forall d | 0 <= d <= MAX_CLIENT && d != c :: t.members[d] == s.members[d]
    requires var m, n := s.members[c], t.members[c];
             && |n.box| <= |m.box|
             && (|| (Stream(n) == Stream(m) && n.since == m.since && n.dropped == m.dropped)
                 || (Stream(n) == [] && n.since == Past(s, c) && n.dropped == {}))
    ensures Inv(t)
  {
    assert forall d | 0 <= d <= MAX_CLIENT :: Past(t, d) == Past(s, d);
  }

  lemma ServeKeeps(s: State)
    requires Inv(s) && Enabled(s, Serve)
    ensures Inv(ServerStep(s))
  {
    match s.pc {
      case Idle => BeginKeeps(s);
      case Casting(_, _) => CastKeeps(s);
      case Listing(_, _, _) => ReplyKeeps(s);
      case Whispering(_, _, _) => DeliverKeeps(s);
    }
  }

  lemma StepKeeps(s: State, a: Action)
    requires Inv(s) && Possible(s, a)
    ensures Inv(Next(s, a))
  {
    if a.Serve? {
      ServeKeeps(s);
    } else {
      if a.Receive? {
        var m := s.members[a.c];
        assert m.got + [m.box[0]] + m.box[1..] == m.got + m.box;
      }
      ClientStepKeeps(s, Next(s, a), a.c);
    }
  }

  lemma StreamsAlwaysOk(run: seq<Action>)
    requires Legal(Chat(), Init(), run)
    ensures Inv(After(Chat(), Init(), run))
  {
    forall s, a | Inv(s) && Possible(s, a) ensures Inv(Next(s, a)) {
      StepKeeps(s, a);
    }
    EveryReachable(Inv, Init(), run);
  }

  lemma StreamOf(run: seq<Action>, c: nat)
    requires Legal(Chat(), Init(), run) && c <= MAX_CLIENT
    ensures var s := After(Chat(), Init(), run);
            && Shape(s) && s.members[c].since <= |s.log|
            && StreamOk(s.log, c, s.members[c], Past(s, c))
  {
    StreamsAlwaysOk(run);
  }
}
