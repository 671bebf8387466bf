/** What the messages say: which requests the messages in the log and in the clients' streams
    come from, and how they are worded. */
module ChatMessages {
  import opened ChatSpec
  import opened ChatSystem
  import opened ChatRefinement
  import opened ChatStreams
  import opened ChatTheorems
  import opened Runs

  // ---------------------------------------------------------------- from requests to the log

  lemma {:induction false} LongerRequestsLongerLog(first: seq<Message>, second: seq<Message>)
    requires AllFromClients(first) && AllFromClients(second)
    ensures AllFromClients(first + second) && LogAfter(first) <= LogAfter(first + second)
    decreases |second|
  {
    if second == [] {
      assert first + second == first;
    } else {
      var n := |second| - 1;
      var before, req := first + second[..n], second[n];
      LongerRequestsLongerLog(first, second[..n]);
      SpecOfOneMore(before, req);
      assert first + second == before + [req];
    }
  }

  /** Everything a request calls for is in the log, behind what the requests before call for. */
  lemma DispatchesAreInLog(before: seq<Message>, req: Message, rest: seq<Message>)
    requires AllFromClients(before) && IsClient(req.sender) && AllFromClients(rest)
    ensures AllFromClients(before + [req] + rest)
    ensures LogAfter(before) + Dispatches(RoomAfter(before), req) <= LogAfter(before + [req] + rest)
  {
    SpecOfOneMore(before, req);
    LongerRequestsLongerLog(before + [req], rest);
  }

  /** A JOIN and a QUIT are announced by the server, by these words, to those who are in the room
      once they have been handled; a BROADCAST goes out as it is. */
  ghost predicate Spread(before: seq<Message>, req: Message, log: seq<Entry>)
    requires AllFromClients(before) && IsClient(req.sender)
  {
    var live := LiveSet(NextRoom(RoomAfter(before), req));
    && (req.kind.Join? ==>
          Entry(ToAll, Message(Server, req.sender, req.name, req.name + " has joined the room"), live) in log)
    && (req.kind.Quit? ==>
          Entry(ToAll, Message(Server, req.sender, req.name, req.name + " has left the room"), live) in log)
    && (req.kind.Broadcast? ==> Entry(ToAll, Message(Broadcast, req.sender, req.name, req.text), live) in log)
  }

  lemma RequestsAreSpread(before: seq<Message>, req: Message, log: seq<Entry>)
    requires AllFromClients(before) && IsClient(req.sender)
    requires LogAfter(before) + Dispatches(RoomAfter(before), req) <= log
    ensures Spread(before, req, log)
  {
    if req.kind.Join? || req.kind.Quit? || req.kind.Broadcast? {
      assert log[|LogAfter(before)|] == Dispatches(RoomAfter(before), req)[0];
    }
  }

  lemma ListReplies(r: Room, req: Message, j: nat)
    requires IsClient(req.sender) && req.kind.List? && j < |Dispatches(r, req)|
    ensures Dispatches(r, req)[j].via.Reply?
  {
    var ids := RepliesEnumerateOthers(r, req, MAX_CLIENT + 1);
  }

  /** What is still to be dispatched of the present request is for one client only. */
  lemma WhatIsMissing(s: State, i: nat)
    requires Matches(s) && s.log <= LogAfter(s.handled) && |s.log| <= i < |LogAfter(s.handled)|
    ensures !LogAfter(s.handled)[i].via.ToAll?
  {
    if s.pc.Listing? {
      var n := |s.handled| - 1;
      var front, req, log := s.handled[..n], s.pc.req, LogAfter(s.handled);
      assert front + [req] == s.handled;
      SpecOfOneMore(front, req);
      ListReplies(RoomAfter(front), req, i - |LogAfter(front)|);
    }
  }

  /** In every run, every JOIN, QUIT and BROADCAST the server has taken has been dispatched so. */
  lemma HandledRequestsAreSpread(run: seq<Action>, before: seq<Message>, req: Message, rest: seq<Message>)
    requires Legal(Chat(), Init(), run) && After(Chat(), Init(), run).handled == before + [req] + rest
    ensures AllFromClients(before) && IsClient(req.sender)
    ensures Spread(before, req, After(Chat(), Init(), run).log)
  {
    AlwaysMatches(run);
    var s := After(Chat(), Init(), run);
    LogIsPrefix(s);
    SplitIsFromClients(before, req, rest);
    DispatchesAreInLog(before, req, rest);
    RequestsAreSpread(before, req, LogAfter(s.handled));
    forall e | e in LogAfter(s.handled) && e.via.ToAll? ensures e in s.log {
      var i :| 0 <= i < |LogAfter(s.handled)| && LogAfter(s.handled)[i] == e;
      if i >= |s.log| {
        WhatIsMissing(s, i);
      }
    }
  }

  lemma SplitIsFromClients(before: seq<Message>, req: Message, rest: seq<Message>)
    requires AllFromClients(before + [req] + rest)
    ensures AllFromClients(before) && IsClient(req.sender) && AllFromClients(rest)
  {
    var all := before + [req] + rest;
    assert all[|before|] == req;
    assert forall k | 0 <= k < |before| :: before[k] == all[k];
    assert forall k | 0 <= k < |rest| :: rest[k] == all[|before| + 1 + k];
  }

  // ---------------------------------------------------------------- from the log to requests

  /** Dispatch `e` is one that request `req` calls for in room `r`: a JOIN, a QUIT and a LIST in
      the server's words, a BROADCAST unchanged, and a WHISPER under its sender's registered
      name. */
  ghost predicate CalledFor(e: Entry, req: Message, r: Room)
    requires IsClient(req.sender)
  {
    match req.kind
    case Join =>
      e.via.ToAll? && e.msg == Message(Server, req.sender, req.name, req.name + " has joined the room")
    case Quit =>
      e.via.ToAll? && e.msg == Message(Server, req.sender, req.name, req.name + " has left the room")
    case Broadcast => e.via.ToAll? && e.msg == Message(Broadcast, req.sender, req.name, req.text)
    case List => e.via.Reply? && e.to == {req.sender} && exists c :: RepliesAbout(e.msg, req, r, c)
    case Whisper =>
      e.via.Private? && e.msg == Message(Whisper, req.sender, r[req.sender].owner, req.text)
    case Server => false
  }

  ghost predicate RepliesAbout(m: Message, req: Message, r: Room, c: nat) {
    && IsClient(c) && r[c].live && c != req.sender
    && m == Message(Server, req.sender, req.name, r[c].owner + " is inside the room")
  }

  lemma DispatchesAreCalledFor(r: Room, req: Message, j: nat)
    requires IsClient(req.sender) && j < |Dispatches(r, req)|
    ensures CalledFor(Dispatches(r, req)[j], req, r)
  {
    if req.kind.List? {
      var ids := RepliesEnumerateOthers(r, req, MAX_CLIENT + 1);
      assert RepliesAbout(Dispatches(r, req)[j].msg, req, r, ids[j]);
    }
  }

  ghost predicate ComesFrom(e: Entry, reqs: seq<Message>)
    requires AllFromClients(reqs)
  {
    exists k :: 0 <= k < |reqs| && CalledFor(e, reqs[k], RoomAfter(reqs[..k]))
  }

  lemma StillComesFrom(e: Entry, reqs: seq<Message>, req: Message)
    requires AllFromClients(reqs) && IsClient(req.sender)
    requires ComesFrom(e, reqs) || CalledFor(e, req, RoomAfter(reqs))
    ensures AllFromClients(reqs + [req]) && ComesFrom(e, reqs + [req])
  {
    var all := reqs + [req];
    if ComesFrom(e, reqs) {
      var k :| 0 <= k < |reqs| && CalledFor(e, reqs[k], RoomAfter(reqs[..k]));
      assert all[..k] == reqs[..k] && all[k] == reqs[k];
    } else {
      assert all[..|reqs|] == reqs && all[|reqs|] == req;
    }
  }

  lemma {:induction false} LogComesFromRequests(reqs: seq<Message>, i: nat)
    requires AllFromClients(reqs) && i < |LogAfter(reqs)|
    ensures ComesFrom(LogAfter(reqs)[i], reqs)
    decreases |reqs|
  {
    if reqs == [] {
    } else {
      var n := |reqs| - 1;
      var before, req, e := reqs[..n], reqs[n], LogAfter(reqs)[i];
      if i < |LogAfter(before)| {
        LogComesFromRequests(before, i);
      } else {
        DispatchesAreCalledFor(RoomAfter(before), req, i - |LogAfter(before)|);
      }
      StillComesFrom(e, before, req);
      assert before + [req] == reqs;
    }
  }

  /** In every run, every message in anybody's stream is one that a request the server has taken
      calls for, in the room as that request found it; so a BROADCAST in it is one of them. */
  lemma StreamsComeFromRequests(run: seq<Action>, c: nat, i: nat)
    requires Legal(Chat(), Init(), run) && IsClient(c)
    requires Shape(After(Chat(), Init(), run)) && i < |Stream(After(Chat(), Init(), run).members[c])|
    ensures var s := After(Chat(), Init(), run); var item := Stream(s.members[c])[i];
            && item.stamp < |s.log| && item.msg == s.log[item.stamp].msg && ComesFrom(s.log[item.stamp], s.handled)
            && (item.msg.kind.Broadcast? ==> item.msg in s.handled)
  {
    StreamIsDispatchLog(run, c);
    ServerRefinesSpec(run);
    var s := After(Chat(), Init(), run);
    var e := s.log[Stream(s.members[c])[i].stamp];
    LogComesFromRequests(s.handled, Stream(s.members[c])[i].stamp);
    var k :| 0 <= k < |s.handled| && CalledFor(e, s.handled[k], RoomAfter(s.handled[..k]));
    assert s.handled[k] in s.handled;
  }
}
