/** What a fair scheduler makes of the chat: every request that gets into the server's box is
    handled, and every message in the box of a client that reads on is received. Threads may
    pause at any time, and clients may do nothing for ever. */
module ChatFairness {
  import opened ChatSpec
  import opened ChatSystem
  import opened ChatRefinement
  import opened ChatStreams
  import opened ChatProgress
  import opened Options
  import opened Runs

  type Schedule = Endless<State, Option<Action>>

  ghost function ChatWithPauses(): System<State, Option<Action>> {
    System((s: State, a: Option<Action>) => a.None? || Possible(s, a.value),
           (s: State, a: Option<Action>) => if a.None? then s else Next(s, a.value))
  }

  ghost predicate Never(s: State) {
    false
  }

  ghost predicate Running(r: Schedule) {
    Follows(ChatWithPauses(), Never, Init(), r)
  }

  lemma Moment(r: Schedule, k: nat)
    requires Running(r)
    ensures Shape(r.state(k)) && Shape(r.state(k + 1))
    ensures r.step(k).None? ==> r.state(k + 1) == r.state(k)
    ensures r.step(k).Some? ==>
              Possible(r.state(k), r.step(k).value) && r.state(k + 1) == Next(r.state(k), r.step(k).value)
  {
    AllAlong(ChatWithPauses(), Shape, Never, Init(), r, k);
    assert Takes(ChatWithPauses(), Never, r, k);
  }

  // ---------------------------------------------------------------- fairness

  ghost predicate TakenSince(r: Schedule, a: Action, k: nat) {
    exists i: nat :: k <= i && r.step(i) == Some(a)
  }

  ghost predicate PossibleSince(r: Schedule, a: Action, k: nat) {
    forall j: nat | k <= j :: Possible(r.state(j), a)
  }

  /** If it can be taken from some moment on without interruption, it is taken again. */
  ghost predicate WeaklyFair(r: Schedule, a: Action) {
    forall k: nat :: PossibleSince(r, a, k) ==> TakenSince(r, a, k)
  }

  ghost predicate Fair(r: Schedule) {
    WeaklyFair(r, Serve) && forall c | 1 <= c <= MAX_CLIENT :: WeaklyFair(r, Receive(c))
  }

  /** Whom the server waits for is reading, and no whisper is undefined. */
  ghost predicate Attended(r: Schedule) {
    forall k: nat :: AttendedAt(r.state(k))
  }

  ghost predicate AttendedAt(s: State) {
    && Shape(s) && !s.pc.Undefined?
    && forall c | 1 <= c <= MAX_CLIENT && Served(s.pc, c) :: s.members[c].reading
  }

  // ---------------------------------------------------------------- a request is completed

  /** A step of anybody else leaves the server where it is, and does not fill the box it waits
      for. */
  lemma OthersDoNotHinder(s: State, a: Action)
    requires Possible(s, a) && !a.Serve?
    ensures var t := Next(s, a);
            && t.pc == s.pc && t.handled == s.handled && s.queue <= t.queue
            && (Sleeps(t) ==> Sleeps(s))
  {
    OthersKeepServer(s, a);
  }

  ghost predicate NothingDone(r: Schedule, k: nat) {
    forall j: nat | k <= j :: Work(r.state(k).pc) <= Work(r.state(j).pc)
  }

  /** As long as nothing is done the server is where it was, and once it has no reason to sleep
      it has none. */
  lemma {:induction false} StaysPut(r: Schedule, k: nat, j: nat)
    requires Running(r) && Attended(r) && NothingDone(r, k) && !r.state(k).pc.Idle? && k <= j
    ensures Shape(r.state(k)) && Shape(r.state(j)) && r.state(j).pc == r.state(k).pc
    ensures !Sleeps(r.state(k)) ==> !Sleeps(r.state(j))
    ensures r.step(j) == Some(Serve) ==> Sleeps(r.state(j))
    decreases j
  {
    Moment(r, k);
    Moment(r, j);
    if j == k {
    } else {
      StaysPut(r, k, j - 1);
      Moment(r, j - 1);
      if r.step(j - 1).Some? {
        if r.step(j - 1).value.Serve? {
          ServerMovesOn(r.state(j - 1));
        } else {
          OthersDoNotHinder(r.state(j - 1), r.step(j - 1).value);
        }
      }
    }
    assert AttendedAt(r.state(j));
    if r.step(j) == Some(Serve) {
      ServerMovesOn(r.state(j));
      assert Work(r.state(j + 1).pc) >= Work(r.state(k).pc);
    }
  }

  lemma AwakeServerMoves(r: Schedule, k: nat)
    requires Running(r) && Fair(r) && Attended(r) && !r.state(k).pc.Idle?
    requires Shape(r.state(k)) && !Sleeps(r.state(k))
    ensures !NothingDone(r, k)
  {
    if NothingDone(r, k) {
      forall j: nat | k <= j ensures Possible(r.state(j), Serve) {
        StaysPut(r, k, j);
        assert AttendedAt(r.state(j));
      }
      assert PossibleSince(r, Serve, k) && TakenSince(r, Serve, k);
      var i: nat :| k <= i && r.step(i) == Some(Serve);
      StaysPut(r, k, i);
      assert false;
    }
  }

  lemma LaterNothingDone(r: Schedule, k: nat, j: nat)
    requires Running(r) && Attended(r) && NothingDone(r, k) && !r.state(k).pc.Idle? && k <= j
    ensures NothingDone(r, j) && !r.state(j).pc.Idle?
  {
    StaysPut(r, k, j);
    assert r.state(j).pc == r.state(k).pc;
    forall i: nat | j <= i ensures Work(r.state(j).pc) <= Work(r.state(i).pc) {
      assert k <= i;
    }
  }

  ghost function Awaited(pc: Pc): nat {
    match pc
    case Listing(_, req, _) => req.sender
    case Whispering(_, msg, _) => msg.sender
    case _ => 0
  }

  ghost predicate Asleep(s: State) {
    Shape(s) && Sleeps(s)
  }

  ghost predicate AlwaysAsleep(r: Schedule, k: nat) {
    forall j: nat | k <= j :: Asleep(r.state(j))
  }

  lemma StillAsleep(r: Schedule, k: nat, j: nat)
    requires AlwaysAsleep(r, k) && k <= j
    ensures Asleep(r.state(j))
  {
  }

  /** The client that keeps the server asleep receives a message, and the server is awake. */
  lemma SleepEnds(r: Schedule, k: nat)
    requires Running(r) && Fair(r) && Attended(r) && NothingDone(r, k) && !r.state(k).pc.Idle?
    ensures !AlwaysAsleep(r, k)
  {
    if AlwaysAsleep(r, k) {
      var c := Awaited(r.state(k).pc);
      forall j: nat | k <= j ensures Possible(r.state(j), Receive(c)) {
        StaysPut(r, k, j);
        StillAsleep(r, k, j);
        assert AttendedAt(r.state(j)) && Served(r.state(j).pc, c);
      }
      assert PossibleSince(r, Receive(c), k) && TakenSince(r, Receive(c), k);
      var i: nat :| k <= i && r.step(i) == Some(Receive(c));
      Moment(r, i);
      StaysPut(r, k, i);
      StillAsleep(r, k, i);
      StillAsleep(r, k, i + 1);
      ReceivingWakes(r.state(i));
      assert false;
    }
  }

  lemma ReceivingWakes(s: State)
    requires Shape(s) && Sleeps(s) && Possible(s, Receive(Awaited(s.pc)))
    ensures !Sleeps(Next(s, Receive(Awaited(s.pc))))
  {
  }

  lemma SomethingIsDone(r: Schedule, k: nat)
    requires Running(r) && Fair(r) && Attended(r) && !r.state(k).pc.Idle?
    ensures !NothingDone(r, k)
  {
    if NothingDone(r, k) {
      SleepEnds(r, k);
      var j: nat :| k <= j && !Asleep(r.state(j));
      Moment(r, j);
      LaterNothingDone(r, k, j);
      AwakeServerMoves(r, j);
      assert false;
    }
  }

  lemma {:induction false} RequestIsCompleted(r: Schedule, k: nat) returns (j: nat)
    requires Running(r) && Fair(r) && Attended(r)
    ensures k <= j && r.state(j).pc.Idle?
    decreases Work(r.state(k).pc)
  {
    if r.state(k).pc.Idle? {
      j := k;
    } else {
      SomethingIsDone(r, k);
      var i: nat :| k <= i && Work(r.state(i).pc) < Work(r.state(k).pc);
      j := RequestIsCompleted(r, i);
    }
  }

  // ---------------------------------------------------------------- every request is handled

  lemma RequestsOfStep(s: State, a: Action)
    requires Possible(s, a)
    ensures var t := Next(s, a);
            && s.handled <= t.handled && s.handled + s.queue <= t.handled + t.queue
            && (s.pc.Idle? && a.Serve? ==> |t.handled| == |s.handled| + 1)
            && (s.pc.Idle? && !a.Serve? ==> t.pc.Idle? && |t.queue| >= |s.queue|)
  {
    if a.Serve? {
      if s.pc.Idle? {
        assert s.handled + [s.queue[0]] + s.queue[1..] == s.handled + s.queue;
      }
    } else {
      OthersDoNotHinder(s, a);
    }
  }

  lemma {:induction false} RequestsStay(r: Schedule, k: nat, j: nat)
    requires Running(r) && k <= j
    ensures r.state(k).handled <= r.state(j).handled
    ensures r.state(k).handled + r.state(k).queue <= r.state(j).handled + r.state(j).queue
    decreases j
  {
    if j == k {
    } else {
      RequestsStay(r, k, j - 1);
      Moment(r, j - 1);
      if r.step(j - 1).Some? {
        RequestsOfStep(r.state(j - 1), r.step(j - 1).value);
      }
    }
  }

  ghost predicate NothingTaken(r: Schedule, k: nat) {
    forall j: nat | k <= j :: |r.state(j).handled| <= |r.state(k).handled|
  }

  lemma {:induction false} StaysIdle(r: Schedule, k: nat, j: nat)
    requires Running(r) && NothingTaken(r, k) && r.state(k).pc.Idle? && r.state(k).queue != [] && k <= j
    ensures r.state(j).pc.Idle? && r.state(j).queue != [] && r.step(j) != Some(Serve)
    ensures |r.state(j).handled| == |r.state(k).handled|
    decreases j
  {
    if j == k {
    } else {
      StaysIdle(r, k, j - 1);
      Moment(r, j - 1);
      if r.step(j - 1).Some? {
        RequestsOfStep(r.state(j - 1), r.step(j - 1).value);
      }
    }
    Moment(r, j);
    RequestsStay(r, k, j);
    assert |r.state(j + 1).handled| <= |r.state(k).handled|;
    if r.step(j) == Some(Serve) {
      RequestsOfStep(r.state(j), Serve);
    }
  }

  lemma NextIsTaken(r: Schedule, k: nat)
    requires Running(r) && Fair(r) && r.state(k).pc.Idle? && r.state(k).queue != []
    ensures !NothingTaken(r, k)
  {
    if NothingTaken(r, k) {
      forall j: nat | k <= j ensures Possible(r.state(j), Serve) {
        StaysIdle(r, k, j);
        Moment(r, j);
      }
      assert PossibleSince(r, Serve, k) && TakenSince(r, Serve, k);
      var i: nat :| k <= i && r.step(i) == Some(Serve);
      StaysIdle(r, k, i);
      assert false;
    }
  }

  lemma {:induction false} AllAreHandled(r: Schedule, k: nat, m: nat) returns (j: nat)
    requires Running(r) && Fair(r) && Attended(r) && k <= m
    ensures k <= j && r.state(k).handled + r.state(k).queue <= r.state(j).handled
    decreases |r.state(k).handled + r.state(k).queue| - |r.state(m).handled|
  {
    RequestsStay(r, k, m);
    j := RequestIsCompleted(r, m);
    RequestsStay(r, k, j);
    RequestsStay(r, m, j);
    if r.state(j).queue == [] {
      assert r.state(j).handled + [] == r.state(j).handled;
    } else if |r.state(j).handled| < |r.state(k).handled + r.state(k).queue| {
      NextIsTaken(r, j);
      var i: nat :| j <= i && |r.state(i).handled| > |r.state(j).handled|;
      j := AllAreHandled(r, k, i);
    }
  }

  // ---------------------------------------------------------------- every message is received

  /** From moment `k` on the client reads and is not started anew. */
  ghost predicate Stays(r: Schedule, c: nat, k: nat) {
    forall j: nat | k <= j :: StaysAt(r, c, j)
  }

  ghost predicate StaysAt(r: Schedule, c: nat, j: nat) {
    && Shape(r.state(j)) && IsClient(c) && r.state(j).members[c].reading
    && !(r.step(j).Some? && r.step(j).value.Start? && r.step(j).value.c == c)
  }

  lemma MessagesOfStep(s: State, a: Action, c: nat)
    requires Possible(s, a) && IsClient(c) && !(a.Start? && a.c == c)
    ensures var m, n := s.members[c], Next(s, a).members[c];
            && Stream(m) <= Stream(n) && |n.got| == |m.got| + (if a == Receive(c) then 1 else 0)
  {
    if a == Receive(c) {
      var m := s.members[c];
      assert m.got + [m.box[0]] + m.box[1..] == m.got + m.box;
    } else if a.Serve? && s.pc.Idle? {
      assert Begin(s).members == s.members;
    }
  }

  lemma {:induction false} MessagesStay(r: Schedule, c: nat, k: nat, j: nat)
    requires Running(r) && Stays(r, c, k) && k <= j
    ensures StaysAt(r, c, k) && StaysAt(r, c, j)
    ensures Stream(r.state(k).members[c]) <= Stream(r.state(j).members[c])
    ensures |r.state(k).members[c].got| <= |r.state(j).members[c].got|
    decreases j
  {
    assert StaysAt(r, c, k) && StaysAt(r, c, j);
    if j == k {
    } else {
      MessagesStay(r, c, k, j - 1);
      Moment(r, j - 1);
      if r.step(j - 1).Some? {
        MessagesOfStep(r.state(j - 1), r.step(j - 1).value, c);
      }
    }
  }

  /** A client with messages in its box that reads on receives another one. */
  lemma NextIsReceived(r: Schedule, c: nat, k: nat) returns (i: nat)
    requires Running(r) && Fair(r) && Stays(r, c, k)
    requires StaysAt(r, c, k) && r.state(k).members[c].box != []
    ensures k <= i && StaysAt(r, c, i) && |r.state(i).members[c].got| > |r.state(k).members[c].got|
  {
    i := k;
    if j: nat :| k <= j && StaysAt(r, c, j) && |r.state(j).members[c].got| > |r.state(k).members[c].got| {
      i := j;
    } else {
      forall j: nat | k <= j ensures Possible(r.state(j), Receive(c)) {
        MessagesStay(r, c, k, j);
        assert |Stream(r.state(j).members[c])| > |r.state(j).members[c].got|;
      }
      assert PossibleSince(r, Receive(c), k) && TakenSince(r, Receive(c), k);
      var j: nat :| k <= j && r.step(j) == Some(Receive(c));
      MessagesStay(r, c, k, j);
      MessagesStay(r, c, k, j + 1);
      Moment(r, j);
      MessagesOfStep(r.state(j), Receive(c), c);
      assert false;
    }
  }

  lemma LaterStays(r: Schedule, c: nat, k: nat, m: nat)
    requires Stays(r, c, k) && k <= m
    ensures Stays(r, c, m)
  {
  }

  lemma {:induction false} AllAreReceived(r: Schedule, c: nat, k: nat, m: nat) returns (j: nat)
    requires Running(r) && Fair(r) && Stays(r, c, k) && k <= m && StaysAt(r, c, k) && StaysAt(r, c, m)
    ensures k <= j && StaysAt(r, c, j) && Stream(r.state(k).members[c]) <= r.state(j).members[c].got
    decreases |Stream(r.state(k).members[c])| - |r.state(m).members[c].got|
  {
    MessagesStay(r, c, k, m);
    if |r.state(m).members[c].got| >= |Stream(r.state(k).members[c])| {
      j := m;
    } else {
      LaterStays(r, c, k, m);
      var i := NextIsReceived(r, c, m);
      j := AllAreReceived(r, c, k, i);
    }
  }

  /** Under a fair scheduler, if those the server waits for read on and no whisper is undefined,
      everything gets through: at every moment, all requests in the server's box will have been
      handled at some later one; and all messages in the box of a client that reads on, and is
      not started anew, will have been received, in order. */
  lemma FairChatDelivers(r: Schedule, k: nat)
    requires Running(r) && Fair(r) && Attended(r)
    ensures exists j: nat :: k <= j && r.state(k).handled + r.state(k).queue <= r.state(j).handled
    ensures Shape(r.state(k))
    ensures forall c | 1 <= c <= MAX_CLIENT && Stays(r, c, k) ::
              exists j: nat :: k <= j && StaysAt(r, c, j) && Stream(r.state(k).members[c]) <= r.state(j).members[c].got
  {
    var j := AllAreHandled(r, k, k);
    Moment(r, k);
    forall c | 1 <= c <= MAX_CLIENT && Stays(r, c, k)
      ensures exists j: nat ::
                k <= j && StaysAt(r, c, j) && Stream(r.state(k).members[c]) <= r.state(j).members[c].got
    {
      assert StaysAt(r, c, k);
      var i := AllAreReceived(r, c, k, k);
    }
  }
}
