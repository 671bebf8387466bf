/** The server program: one reused message, the room it updates in place, and its loops.

    A box is the queue that MessageBox keeps. Other threads show up only in the waits: while
    the server sleeps on a full box, the client that owns it is assumed to read on. */
module ChatServer {
  import opened ChatSpec

  /** The messages among `entries` that are addressed to `c`. */
  ghost function For(entries: seq<Entry>, c: nat): seq<Message> {
    if entries == [] then []
    else For(entries[..|entries| - 1], c)
         + (if c in entries[|entries| - 1].to then [entries[|entries| - 1].msg] else [])
  }

  lemma ForOne(e: Entry, c: nat)
    ensures For([e], c) == if c in e.to then [e.msg] else []
  {
    assert [e][..0] == [];
  }

  lemma ForOneMore(entries: seq<Entry>, e: Entry, c: nat)
    ensures For(entries + [e], c) == For(entries, c) + (if c in e.to then [e.msg] else [])
  {
    assert (entries + [e])[..|entries + [e]| - 1] == entries;
  }

  lemma {:induction false} RepliesForOthers(r: Room, req: Message, i: nat, c: nat)
    requires i <= MAX_CLIENT + 1 && c != req.sender
    ensures For(Replies(r, req, i), c) == []
    decreases i
  {
    if i <= 1 {
    } else {
      RepliesForOthers(r, req, i - 1, c);
      var e := Entry(Reply, ListReply(r, req, i - 1), {req.sender});
      ForOneMore(Replies(r, req, i - 1), e, c);
      assert Replies(r, req, i) == Replies(r, req, i - 1) || Replies(r, req, i) == Replies(r, req, i - 1) + [e];
    }
  }

  /** What a request adds to `c`'s stream if its box holds `pending` messages before. */
  ghost function Added(r: Room, req: Message, c: nat, pending: nat): seq<Message>
    requires IsClient(req.sender)
  {
    if pending == CAPACITY && !req.kind.List? && !(req.kind.Whisper? && c == req.sender) then []
    else For(Dispatches(r, req), c)
  }

  /** Full boxes drop what is dispatched, except what the server has waited for room for: the
      replies to a LIST, and a whisper to oneself. */
  lemma DroppedExactlyWhen(r: Room, req: Message, c: nat, pending: nat)
    requires IsClient(req.sender) && For(Dispatches(r, req), c) != []
    ensures Added(r, req, c, pending) == [] || Added(r, req, c, pending) == For(Dispatches(r, req), c)
    ensures req.kind.List? ==> Added(r, req, c, pending) != []
    ensures req.kind.Whisper? && FirstOwner(r, req.name, 1) == req.sender ==> Added(r, req, c, pending) != []
    ensures req.kind.Join? || req.kind.Quit? || req.kind.Broadcast? || (req.kind.Whisper? && c != req.sender) ==>
              (Added(r, req, c, pending) == [] <==> pending == 127)
  {
    if req.kind.Whisper? {
      ForOne(Dispatches(r, req)[0], c);
      assert Dispatches(r, req) == [Dispatches(r, req)[0]];
    }
  }

  lemma AddedBySingleDispatch(r: Room, req: Message, c: nat, pending: nat)
    requires IsClient(req.sender) && |Dispatches(r, req)| == 1 && !req.kind.List?
    ensures var e := Dispatches(r, req)[0];
            Added(r, req, c, pending) ==
            if c in e.to && (pending != CAPACITY || (req.kind.Whisper? && c == req.sender)) then [e.msg] else []
  {
    ForOne(Dispatches(r, req)[0], c);
    assert Dispatches(r, req) == [Dispatches(r, req)[0]];
  }

  ghost function AddedByWhisper(r: Room, req: Message, c: nat, pending: nat): seq<Message>
    requires IsClient(req.sender)
  {
    if WhisperDefined(r, req) && c == FirstOwner(r, req.name, 1) && (pending != CAPACITY || c == req.sender)
    then [req.(name := r[req.sender].owner)] else []
  }

  lemma WhisperAdds(r: Room, req: Message, c: nat, pending: nat)
    requires IsClient(req.sender) && req.kind.Whisper?
    ensures Added(r, req, c, pending) == AddedByWhisper(r, req, c, pending)
  {
    if WhisperDefined(r, req) {
      AddedBySingleDispatch(r, req, c, pending);
    }
  }

  /** What an offer of `m` adds to a stream. */
  ghost function Accepted(inRoom: bool, pending: nat, m: Message): seq<Message> {
    if inRoom && pending < CAPACITY then [m] else []
  }

  lemma AddedByCast(r: Room, req: Message, m: Message, c: nat, pending: nat)
    requires IsClient(req.sender) && IsClient(c) && pending <= CAPACITY
    requires Dispatches(r, req) == [Entry(ToAll, m, LiveSet(NextRoom(r, req)))] && !req.kind.List? && !req.kind.Whisper?
    ensures Added(r, req, c, pending) == Accepted(NextRoom(r, req)[c].live, pending, m)
  {
    AddedBySingleDispatch(r, req, c, pending);
  }

  /** A request handled: the room it found, and how many messages each box held before. */
  datatype Turn = Turn(room: Room, req: Message, pending: seq<nat>) {
    ghost predicate Ok() {
      IsClient(req.sender) && |pending| == MAX_CLIENT + 1
    }

    /** A whisper to nobody in the room. */
    ghost predicate Fails() {
      req.kind.Whisper? && !WhisperDefined(room, req)
    }

    ghost function Calls(): seq<Entry>
      requires Ok()
    {
      Dispatches(room, req)
    }

    ghost function Adds(c: nat): seq<Message>
      requires Ok() && IsClient(c)
    {
      Added(room, req, c, pending[c])
    }
  }

  ghost predicate AllOk(turns: seq<Turn>) {
    forall k | 0 <= k < |turns| :: turns[k].Ok()
  }

  ghost function RoomOf(r: Room, turns: seq<Turn>): Room
    requires AllOk(turns)
  {
    if turns == [] then r else NextRoom(turns[|turns| - 1].room, turns[|turns| - 1].req)
  }

  /** Each request found the room that the one before it left, the first one found `r`. */
  ghost predicate Chained(r: Room, turns: seq<Turn>)
    requires AllOk(turns)
  {
    turns == [] ||
    (var n := |turns| - 1; turns[n].room == RoomOf(r, turns[..n]) && Chained(r, turns[..n]))
  }

  ghost function RequestsOf(turns: seq<Turn>): (reqs: seq<Message>)
    requires AllOk(turns)
    ensures AllFromClients(reqs)
  {
    seq(|turns|, k requires 0 <= k < |turns| => turns[k].req)
  }

  lemma ChainedOneMore(r: Room, turns: seq<Turn>, t: Turn)
    requires AllOk(turns) && t.Ok() && Chained(r, turns) && t.room == RoomOf(r, turns)
    ensures Chained(r, turns + [t]) && RoomOf(r, turns + [t]) == NextRoom(t.room, t.req)
    ensures RequestsOf(turns + [t]) == RequestsOf(turns) + [t.req]
  {
    assert (turns + [t])[..|turns|] == turns;
  }

  ghost function Concat<T>(pieces: seq<seq<T>>): seq<T> {
    if pieces == [] then [] else Concat(pieces[..|pieces| - 1]) + pieces[|pieces| - 1]
  }

  /** No box held more before a request than what it held at first and what had been added by
      then. */
  ghost predicate Plausible(pieces: seq<seq<Message>>, pending: seq<nat>, held: nat)
    requires |pieces| == |pending|
  {
    pieces == [] ||
    (var n := |pieces| - 1;
     pending[n] <= held + |Concat(pieces[..n])| && Plausible(pieces[..n], pending[..n], held))
  }

  /** A stream is what it was, `held` of it in the box, and the pieces. */
  ghost predicate InLine(
      pieces: seq<seq<Message>>, pending: seq<nat>, was: seq<Message>, held: nat, stream: seq<Message>, now: nat)
  {
    && |pieces| == |pending| && stream == was + Concat(pieces) && Plausible(pieces, pending, held)
    && now <= held + |Concat(pieces)|
  }

  lemma InLineOneMore(
      pieces: seq<seq<Message>>, pending: seq<nat>, was: seq<Message>, held: nat, stream: seq<Message>, now: nat,
      more: seq<Message>, next: nat)
    requires InLine(pieces, pending, was, held, stream, now) && next <= now + |more|
    ensures InLine(pieces + [more], pending + [now], was, held, stream + more, next)
  {
    var all := pieces + [more];
    assert all[..|pieces|] == pieces && (pending + [now])[..|pieces|] == pending;
    assert (was + Concat(pieces)) + more == was + (Concat(pieces) + more);
  }

  /** What each request adds to `c`'s stream, and how many messages the box held before. */
  ghost function Pieces(turns: seq<Turn>, c: nat): seq<seq<Message>>
    requires AllOk(turns) && IsClient(c)
  {
    seq(|turns|, k requires 0 <= k < |turns| => turns[k].Adds(c))
  }

  ghost function Held(turns: seq<Turn>, c: nat): seq<nat>
    requires AllOk(turns) && IsClient(c)
  {
    seq(|turns|, k requires 0 <= k < |turns| => turns[k].pending[c])
  }

  lemma PiecesOneMore(turns: seq<Turn>, t: Turn, c: nat)
    requires AllOk(turns) && t.Ok() && IsClient(c)
    ensures Pieces(turns + [t], c) == Pieces(turns, c) + [t.Adds(c)]
    ensures Held(turns + [t], c) == Held(turns, c) + [t.pending[c]]
  {
  }

  /** The dispatches each request calls for. */
  ghost function Called(turns: seq<Turn>): seq<seq<Entry>>
    requires AllOk(turns)
  {
    seq(|turns|, k requires 0 <= k < |turns| => turns[k].Calls())
  }

  lemma {:induction false} ForAppends(first: seq<Entry>, second: seq<Entry>, c: nat)
    ensures For(first + second, c) == For(first, c) + For(second, c)
    decreases |second|
  {
    var n := |second| - 1;
    if second == [] {
      assert first + second == first;
    } else {
      ForAppends(first, second[..n], c);
      ForOneMore(first + second[..n], second[n], c);
      assert first + second[..n] + [second[n]] == first + second;
    }
  }

  lemma {:induction false} ForConcat(pieces: seq<seq<Message>>, entries: seq<seq<Entry>>, c: nat)
    requires |pieces| == |entries| && forall k | 0 <= k < |pieces| :: pieces[k] == For(entries[k], c)
    ensures Concat(pieces) == For(Concat(entries), c)
    decreases |pieces|
  {
    if pieces == [] {
    } else {
      var n := |pieces| - 1;
      ForConcat(pieces[..n], entries[..n], c);
      ForAppends(Concat(entries[..n]), entries[n], c);
    }
  }

  /** A client whose box is not full when a request is taken gets all that is dispatched to it,
      in order. */
  lemma AllThatIsDispatched(turns: seq<Turn>, c: nat)
    requires AllOk(turns) && IsClient(c)
    requires forall k | 0 <= k < |turns| :: turns[k].pending[c] != CAPACITY
    ensures Concat(Pieces(turns, c)) == For(Concat(Called(turns)), c)
  {
    forall k | 0 <= k < |turns| ensures Pieces(turns, c)[k] == For(Called(turns)[k], c) {
      assert Pieces(turns, c)[k] == turns[k].Adds(c);
    }
    ForConcat(Pieces(turns, c), Called(turns), c);
  }

  lemma RoomOfOneMore(reqs: seq<Message>, req: Message)
    requires AllFromClients(reqs) && IsClient(req.sender)
    ensures AllFromClients(reqs + [req]) && RoomAfter(reqs + [req]) == NextRoom(RoomAfter(reqs), req)
  {
    assert (reqs + [req])[..|reqs + [req]| - 1] == reqs;
  }

  class Server {
    const room: array<Session>
    const boxes: array<seq<Message>>
    /** What each receiving thread has taken out of its box. */
    const taken: array<seq<Message>>
    var msg: Message
    /** The requests handled so far. */
    ghost var handled: seq<Message>

    ghost predicate Valid()
      reads this, room, boxes, taken
    {
      && room.Length == boxes.Length == taken.Length == MAX_CLIENT + 1
      && boxes != taken
      && (forall c | 0 <= c <= MAX_CLIENT :: |boxes[c]| <= CAPACITY)
      && AllFromClients(handled) && room[..] == RoomAfter(handled)
    }

    /** Everything that got into `c`'s box, taken or not. */
    ghost function Stream(c: nat): seq<Message>
      reads boxes, taken
      requires c < boxes.Length && c < taken.Length
    {
      taken[c] + boxes[c]
    }

    constructor ()
      ensures Valid() && handled == []
      ensures forall c | 0 <= c <= MAX_CLIENT :: Stream(c) == []
      ensures fresh(room) && fresh(boxes) && fresh(taken)
    {
      room := new Session[MAX_CLIENT + 1](i => Session(if i == 0 then "SERVER" else "", false));
      boxes := new seq<Message>[MAX_CLIENT + 1](_ => []);
      taken := new seq<Message>[MAX_CLIENT + 1](_ => []);
      msg := Message(Kind.Server, 0, "", "");
      handled := [];
      new;
      assert room[..] == EmptyRoom();
    }

    /** messagebox_send; fails on a full box. */
    method Send(c: nat, m: Message) returns (code: int)
      requires Valid() && IsClient(c)
      modifies boxes
      ensures Valid() && (code == 0 <==> old(|boxes[c]|) < CAPACITY)
      ensures boxes[c] == if code == 0 then old(boxes[c]) + [m] else old(boxes[c])
      ensures forall d | 0 <= d <= MAX_CLIENT && d != c :: boxes[d] == old(boxes[d])
    {
      if |boxes[c]| == CAPACITY {
        return -1;
      }
      boxes[c] := boxes[c] + [m];
      return 0;
    }

    /** usleep in a wait for room: the receiving thread of `c` takes some messages. */
    method Sleep(c: nat)
      requires Valid() && IsClient(c) && boxes[c] != []
      modifies boxes, taken
      ensures Valid() && |boxes[c]| < old(|boxes[c]|) && Stream(c) == old(Stream(c))
      ensures |taken[c]| >= |old(taken[c])|
      ensures forall d | 0 <= d <= MAX_CLIENT && d != c :: boxes[d] == old(boxes[d]) && taken[d] == old(taken[d])
    {
      var n :| 1 <= n <= |boxes[c]|;
      taken[c] := taken[c] + boxes[c][..n];
      boxes[c] := boxes[c][n..];
    }

    method WaitForRoom(c: nat)
      requires Valid() && IsClient(c)
      modifies boxes, taken
      ensures Valid() && |boxes[c]| < CAPACITY && Stream(c) == old(Stream(c))
      ensures |taken[c]| >= |old(taken[c])|
      ensures forall d | 0 <= d <= MAX_CLIENT && d != c :: boxes[d] == old(boxes[d]) && taken[d] == old(taken[d])
    {
      while |boxes[c]| == CAPACITY
        invariant Valid() && Stream(c) == old(Stream(c)) && |taken[c]| >= |old(taken[c])|
        invariant forall d | 0 <= d <= MAX_CLIENT && d != c :: boxes[d] == old(boxes[d]) && taken[d] == old(taken[d])
        decreases |boxes[c]|
      {
        Sleep(c);
      }
    }

    /** client_boardcast: everybody in the room is offered the message, full boxes drop it. */
    method Broadcast()
      requires Valid()
      modifies boxes
      ensures Valid()
      ensures forall c | 1 <= c <= MAX_CLIENT ::
                Stream(c) == old(Stream(c)) + Accepted(room[c].live, old(|boxes[c]|), msg)
    {
      for i := 1 to MAX_CLIENT + 1
        invariant Valid()
        invariant forall c | 1 <= c < i ::
                    Stream(c) == old(Stream(c)) + Accepted(room[c].live, old(|boxes[c]|), msg)
        invariant forall c | i <= c <= MAX_CLIENT :: boxes[c] == old(boxes[c])
      {
        if room[i].live {
          var code := Send(i, msg);
        }
        assert Stream(i) == old(Stream(i)) + Accepted(room[i].live, old(|boxes[i]|), msg);
      }
    }

    /** Sends the requester `c` the reply about `i`. */
    method ReplyAbout(c: nat, i: nat)
      requires Valid() && IsClient(c) && IsClient(i)
      modifies this`msg, boxes, taken
      ensures Valid() && msg == old(msg).(text := room[i].owner + " is inside the room")
      ensures Stream(c) == old(Stream(c)) + [msg] && |taken[c]| >= |old(taken[c])|
      ensures forall d | 0 <= d <= MAX_CLIENT && d != c :: boxes[d] == old(boxes[d]) && taken[d] == old(taken[d])
    {
      msg := msg.(text := room[i].owner + " is inside the room");
      WaitForRoom(c);
      var code := Send(c, msg);
    }

    /** The LIST case: the requester gets every reply, however full its box was. */
    method AnswerList(ghost req: Message)
      requires Valid() && IsClient(req.sender) && msg == req
      modifies this`msg, boxes, taken
      ensures Valid()
      ensures Stream(req.sender) == old(Stream(req.sender)) + For(Replies(room[..], req, MAX_CLIENT + 1), req.sender)
      ensures |taken[req.sender]| >= |old(taken[req.sender])|
      ensures forall d | 0 <= d <= MAX_CLIENT && d != req.sender ::
                boxes[d] == old(boxes[d]) && taken[d] == old(taken[d])
    {
      var c := msg.sender;
      ghost var r, stream := room[..], Stream(c);
      msg := msg.(kind := Kind.Server);
      var i := 1;
      while i <= MAX_CLIENT
        invariant Valid() && 1 <= i <= MAX_CLIENT + 1 && room[..] == r
        invariant msg == req.(kind := Kind.Server, text := msg.text)
        invariant Stream(c) == stream + For(Replies(r, req, i), c) && |taken[c]| >= |old(taken[c])|
        invariant forall d | 0 <= d <= MAX_CLIENT && d != c :: boxes[d] == old(boxes[d]) && taken[d] == old(taken[d])
      {
        ghost var next := Replies(r, req, i + 1);
        if room[i].live && i != msg.sender {
          ReplyAbout(c, i);
          assert next == Replies(r, req, i) + [Entry(Reply, msg, {c})];
          ForOneMore(Replies(r, req, i), Entry(Reply, msg, {c}), c);
        } else {
          assert next == Replies(r, req, i);
        }
        i := i + 1;
      }
    }

    /** The WHISPER case; `defined` is false where the program follows a bad pointer. */
    method PassOnWhisper() returns (defined: bool)
      requires Valid() && IsClient(msg.sender)
      modifies this`msg, boxes, taken
      ensures Valid() && defined == WhisperDefined(room[..], old(msg))
      ensures !defined ==> boxes[..] == old(boxes[..]) && taken[..] == old(taken[..])
      ensures forall d | 0 <= d <= MAX_CLIENT :: |taken[d]| >= |old(taken[d])|
      ensures defined ==>
                var to, c := FirstOwner(room[..], old(msg).name, 1), old(msg).sender;
                && msg == old(msg).(name := room[c].owner)
                && Stream(to) == old(Stream(to)) + (if to == c || old(|boxes[to]|) < CAPACITY then [msg] else [])
                && forall d | 0 <= d <= MAX_CLIENT && d != to :: Stream(d) == old(Stream(d))
    {
      var to := 1;
      while to <= MAX_CLIENT && room[to].owner != msg.name
        invariant 1 <= to <= MAX_CLIENT + 1
        invariant FirstOwner(room[..], msg.name, to) == FirstOwner(room[..], msg.name, 1)
      {
        to := to + 1;
      }
      if to > MAX_CLIENT || !room[to].live {
        return false;
      }
      var c := msg.sender;
      msg := msg.(name := room[c].owner);
      WaitForRoom(c);
      var code := Send(to, msg);
      return true;
    }

    method HandleJoin(req: Message)
      requires Valid() && IsClient(req.sender) && req.kind.Join?
      modifies this, room, boxes
      ensures Valid() && handled == old(handled) + [req]
      ensures forall c | 1 <= c <= MAX_CLIENT ::
                Stream(c) == old(Stream(c)) + Added(old(room[..]), req, c, old(|boxes[c]|))
    {
      ghost var r, pending := room[..], seq(MAX_CLIENT + 1, c requires 0 <= c <= MAX_CLIENT reads boxes => |boxes[c]|);
      RoomOfOneMore(handled, req);
      room[req.sender] := Session(req.name, true);
      handled := handled + [req];
      msg := req.(kind := Kind.Server, text := req.name + " has joined the room");
      assert room[..] == NextRoom(r, req);
      Broadcast();
      forall c | 1 <= c <= MAX_CLIENT ensures Added(r, req, c, pending[c]) == Accepted(room[c].live, pending[c], msg) {
        AddedByCast(r, req, msg, c, pending[c]);
      }
    }

    method HandleBroadcast(req: Message)
      requires Valid() && IsClient(req.sender) && req.kind.Broadcast?
      modifies this, room, boxes
      ensures Valid() && handled == old(handled) + [req]
      ensures forall c | 1 <= c <= MAX_CLIENT ::
                Stream(c) == old(Stream(c)) + Added(old(room[..]), req, c, old(|boxes[c]|))
    {
      ghost var r, pending := room[..], seq(MAX_CLIENT + 1, c requires 0 <= c <= MAX_CLIENT reads boxes => |boxes[c]|);
      RoomOfOneMore(handled, req);
      handled := handled + [req];
      msg := req;
      assert room[..] == NextRoom(r, req);
      Broadcast();
      forall c | 1 <= c <= MAX_CLIENT ensures Added(r, req, c, pending[c]) == Accepted(room[c].live, pending[c], msg) {
        AddedByCast(r, req, msg, c, pending[c]);
      }
    }

    method HandleQuit(req: Message)
      requires Valid() && IsClient(req.sender) && req.kind.Quit?
      modifies this, room, boxes
      ensures Valid() && handled == old(handled) + [req]
      ensures forall c | 1 <= c <= MAX_CLIENT ::
                Stream(c) == old(Stream(c)) + Added(old(room[..]), req, c, old(|boxes[c]|))
    {
      ghost var r, pending := room[..], seq(MAX_CLIENT + 1, c requires 0 <= c <= MAX_CLIENT reads boxes => |boxes[c]|);
      RoomOfOneMore(handled, req);
      room[req.sender] := Session(room[req.sender].owner, false);
      handled := handled + [req];
      msg := req.(kind := Kind.Server, text := req.name + " has left the room");
      assert room[..] == NextRoom(r, req);
      Broadcast();
      forall c | 1 <= c <= MAX_CLIENT ensures Added(r, req, c, pending[c]) == Accepted(room[c].live, pending[c], msg) {
        AddedByCast(r, req, msg, c, pending[c]);
      }
    }

    method HandleList(req: Message)
      requires Valid() && IsClient(req.sender) && req.kind.List?
      modifies this, boxes, taken
      ensures Valid() && handled == old(handled) + [req]
      ensures forall d | 0 <= d <= MAX_CLIENT :: |taken[d]| >= |old(taken[d])|
      ensures forall c | 1 <= c <= MAX_CLIENT ::
                Stream(c) == old(Stream(c)) + Added(old(room[..]), req, c, old(|boxes[c]|))
    {
      RoomOfOneMore(handled, req);
      handled := handled + [req];
      msg := req;
      AnswerList(req);
      forall c | 1 <= c <= MAX_CLIENT && c != req.sender
        ensures Stream(c) == old(Stream(c)) + Added(room[..], req, c, old(|boxes[c]|))
      {
        RepliesForOthers(room[..], req, MAX_CLIENT + 1, c);
      }
    }

    method HandleWhisper(req: Message) returns (defined: bool)
      requires Valid() && IsClient(req.sender) && req.kind.Whisper?
      modifies this, boxes, taken
      ensures Valid() && handled == old(handled) + [req]
      ensures forall d | 0 <= d <= MAX_CLIENT :: |taken[d]| >= |old(taken[d])|
      ensures defined <==> WhisperDefined(old(room[..]), req)
      ensures forall c | 1 <= c <= MAX_CLIENT ::
                Stream(c) == old(Stream(c)) + Added(old(room[..]), req, c, old(|boxes[c]|))
    {
      RoomOfOneMore(handled, req);
      handled := handled + [req];
      msg := req;
      defined := PassOnWhisper();
      forall c | 1 <= c <= MAX_CLIENT
        ensures Added(room[..], req, c, old(|boxes[c]|)) == AddedByWhisper(room[..], req, c, old(|boxes[c]|))
      {
        WhisperAdds(room[..], req, c, old(|boxes[c]|));
      }
    }

    /** One turn of the main loop: the room becomes what the request makes of it, and every
        stream grows by what the request dispatches to it, unless that is dropped. */
    method Handle(req: Message) returns (defined: bool)
      requires Valid() && IsClient(req.sender)
      modifies this, room, boxes, taken
      ensures Valid() && handled == old(handled) + [req]
      ensures forall d | 0 <= d <= MAX_CLIENT :: |taken[d]| >= |old(taken[d])|
      ensures defined <==> (req.kind.Whisper? ==> WhisperDefined(old(room[..]), req))
      ensures forall c | 1 <= c <= MAX_CLIENT ::
                Stream(c) == old(Stream(c)) + Added(old(room[..]), req, c, old(|boxes[c]|))
    {
      defined := true;
      match req.kind {
        case Join => HandleJoin(req);
        case Broadcast => HandleBroadcast(req);
        case Quit => HandleQuit(req);
        case List => HandleList(req);
        case Whisper => defined := HandleWhisper(req);
        case Server =>
          RoomOfOneMore(handled, req);
          msg, handled := req, handled + [req];
      }
    }

    ghost function Pending(): (p: seq<nat>)
      reads boxes
      requires boxes.Length == MAX_CLIENT + 1
      ensures |p| == MAX_CLIENT + 1
    {
      seq(MAX_CLIENT + 1, c requires 0 <= c <= MAX_CLIENT reads boxes => |boxes[c]|)
    }

    ghost function Streams(): (r: seq<seq<Message>>)
      reads boxes, taken
      requires boxes.Length == taken.Length == MAX_CLIENT + 1
      ensures |r| == MAX_CLIENT + 1
    {
      seq(MAX_CLIENT + 1, c requires 0 <= c <= MAX_CLIENT reads boxes, taken => Stream(c))
    }

    ghost predicate Since(turns: seq<Turn>, was: seq<seq<Message>>, held: seq<nat>)
      reads this, room, boxes, taken
      requires Valid()
    {
      && AllOk(turns) && |was| == |held| == MAX_CLIENT + 1
      && forall c | 1 <= c <= MAX_CLIENT ::
           InLine(Pieces(turns, c), Held(turns, c), was[c], held[c], Stream(c), |boxes[c]|)
    }

    lemma NothingSince()
      requires Valid()
      ensures Since([], Streams(), Pending())
    {
      assert forall c | 1 <= c <= MAX_CLIENT :: Stream(c) + [] == Stream(c);
    }

    /** Handles one request more. */
    method HandleNext(req: Message, ghost turns: seq<Turn>, ghost was: seq<seq<Message>>, ghost held: seq<nat>)
      returns (defined: bool, ghost t: Turn)
      requires Valid() && Since(turns, was, held) && IsClient(req.sender)
      modifies this, room, boxes, taken
      ensures Valid() && handled == old(handled) + [req]
      ensures defined <==> (req.kind.Whisper? ==> WhisperDefined(old(room[..]), req))
      ensures t.Ok() && t.room == old(room[..]) && t.req == req && Since(turns + [t], was, held)
      ensures room[..] == NextRoom(t.room, req)
    {
      t := Turn(room[..], req, Pending());
      ghost var before := Streams();
      RoomOfOneMore(handled, req);
      defined := Handle(req);
      forall c | 1 <= c <= MAX_CLIENT
        ensures InLine(Pieces(turns + [t], c), Held(turns + [t], c), was[c], held[c], Stream(c), |boxes[c]|)
      {
        PiecesOneMore(turns, t, c);
        InLineOneMore(
          Pieces(turns, c), Held(turns, c), was[c], held[c], before[c], t.pending[c], t.Adds(c), |boxes[c]|);
      }
    }

    /** The main loop. */
    method HandleAll(requests: seq<Message>, ghost was: seq<seq<Message>>, ghost held: seq<nat>)
      returns (n: nat, ghost turns: seq<Turn>)
      requires Valid() && AllFromClients(requests) && Since([], was, held)
      modifies this, room, boxes, taken
      ensures Valid() && Since(turns, was, held) && Chained(old(room[..]), turns)
      ensures |turns| == n <= |requests| && RequestsOf(turns) == requests[..n]
      ensures handled == old(handled) + RequestsOf(turns)
      ensures n < |requests| ==> n > 0 && turns[n - 1].Fails()
    {
      n, turns := 0, [];
      var defined := true;
      ghost var r, front := room[..], handled;
      while n < |requests| && defined
        invariant Valid() && Since(turns, was, held)
        invariant |turns| == n <= |requests| && RequestsOf(turns) == requests[..n]
        invariant handled == front + RequestsOf(turns)
        invariant Chained(r, turns) && room[..] == RoomOf(r, turns)
        invariant !defined ==> n > 0 && turns[n - 1].Fails()
      {
        var req := requests[n];
        ghost var t;
        ghost var done := RequestsOf(turns);
        assert requests[..n + 1] == done + [req] && (front + done) + [req] == front + (done + [req]);
        defined, t := HandleNext(req, turns, was, held);
        ChainedOneMore(r, turns, t);
        n, turns := n + 1, turns + [t];
      }
    }

    /** Handles requests in order, up to the first undefined one. */
    method Run(requests: seq<Message>) returns (n: nat, ghost turns: seq<Turn>)
      requires Valid() && AllFromClients(requests)
      modifies this, room, boxes, taken
      ensures Valid() && n <= |requests| && handled == old(handled) + requests[..n]
      ensures room[..] == RoomAfter(handled)
      ensures AllOk(turns) && RequestsOf(turns) == requests[..n] && Chained(old(room[..]), turns)
      ensures |turns| == n && (n < |requests| ==> n > 0 && turns[n - 1].Fails())
      ensures forall c | 1 <= c <= MAX_CLIENT ::
                && Stream(c) == old(Stream(c)) + Concat(Pieces(turns, c))
                && Plausible(Pieces(turns, c), Held(turns, c), |old(boxes[c])|)
    {
      NothingSince();
      n, turns := HandleAll(requests, Streams(), Pending());
    }
  }
}
