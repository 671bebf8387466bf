/** The chat server one request at a time: what each request does to the room, and which
    messages it dispatches to whom. The interleaved server is proved against this. */
module ChatSpec {

  const MAX_CLIENT := 100
  const MESSAGE_BUF_SIZE := 128
  /** What a box holds at most: one message less than it has slots. */
  const CAPACITY := MESSAGE_BUF_SIZE - 1

  datatype Kind = Server | Join | Broadcast | Quit | List | Whisper
  datatype Message = Message(kind: Kind, sender: nat, name: string, text: string)

  /** A slot of room[]: the owner's name stays when the client leaves. */
  datatype Session = Session(owner: string, live: bool)
  type Room = r: seq<Session> | |r| == MAX_CLIENT + 1 witness seq(MAX_CLIENT + 1, _ => Session("", false))

  predicate IsClient(c: nat) {
    1 <= c <= MAX_CLIENT
  }

  function EmptyRoom(): Room {
    seq(MAX_CLIENT + 1, i => Session(if i == 0 then "SERVER" else "", false))
  }

  function LiveSet(r: Room): set<nat> {
    set i: nat | 1 <= i <= MAX_CLIENT && r[i].live
  }

  /** The first id from `i` on with the given owner, or one past the last id. */
  function FirstOwner(r: Room, name: string, i: nat): (w: nat)
    requires 1 <= i <= MAX_CLIENT + 1
    ensures i <= w <= MAX_CLIENT + 1
    ensures forall k | i <= k < w :: r[k].owner != name
    ensures w <= MAX_CLIENT ==> r[w].owner == name
    decreases MAX_CLIENT - i
  {
    if i > MAX_CLIENT then i else if r[i].owner == name then i else FirstOwner(r, name, i + 1)
  }

  /** Dispatched to everybody in the room, in reply to a LIST, or to one receiver. */
  datatype Via = ToAll | Reply | Private
  datatype Entry = Entry(via: Via, msg: Message, to: set<nat>)

  function Announcement(req: Message, what: string): Message {
    req.(kind := Server, text := req.name + what)
  }

  function ListReply(r: Room, req: Message, i: nat): Message
    requires i <= MAX_CLIENT
  {
    req.(kind := Server, text := r[i].owner + " is inside the room")
  }

  function NextRoom(r: Room, req: Message): Room
    requires IsClient(req.sender)
  {
    match req.kind
    case Join => r[req.sender := Session(req.name, true)]
    case Quit => r[req.sender := r[req.sender].(live := false)]
    case _ => r
  }

  /** The replies to a LIST about the ids below `i`. */
  function Replies(r: Room, req: Message, i: nat): seq<Entry>
    requires i <= MAX_CLIENT + 1
  {
    if i <= 1 then []
    else Replies(r, req, i - 1)
         + (if r[i - 1].live && i - 1 != req.sender then [Entry(Reply, ListReply(r, req, i - 1), {req.sender})]
            else [])
  }

  /** A whisper goes to the first id that has or had the name; with none, or with one whose
      client has left, the program follows a pointer it never set or a null pointer. */
  predicate WhisperDefined(r: Room, req: Message) {
    var w := FirstOwner(r, req.name, 1);
    w <= MAX_CLIENT && r[w].live
  }

  function Dispatches(r: Room, req: Message): seq<Entry>
    requires IsClient(req.sender)
  {
    match req.kind
    case Join => [Entry(ToAll, Announcement(req, " has joined the room"), LiveSet(NextRoom(r, req)))]
    case Broadcast => [Entry(ToAll, req, LiveSet(r))]
    case Quit => [Entry(ToAll, Announcement(req, " has left the room"), LiveSet(NextRoom(r, req)))]
    case List => Replies(r, req, MAX_CLIENT + 1)
    case Whisper =>
      if WhisperDefined(r, req)
      then [Entry(Private, req.(name := r[req.sender].owner), {FirstOwner(r, req.name, 1)})]
      else []
    case Server => []
  }

  predicate AllFromClients(reqs: seq<Message>) {
    forall k | 0 <= k < |reqs| :: IsClient(reqs[k].sender)
  }

  /** The room after handling `reqs`, and everything dispatched while doing so. */
  function RoomAfter(reqs: seq<Message>): Room
    requires AllFromClients(reqs)
  {
    if reqs == [] then EmptyRoom()
    else NextRoom(RoomAfter(reqs[..|reqs| - 1]), reqs[|reqs| - 1])
  }

  function LogAfter(reqs: seq<Message>): seq<Entry>
    requires AllFromClients(reqs)
  {
    if reqs == [] then []
    else LogAfter(reqs[..|reqs| - 1]) + Dispatches(RoomAfter(reqs[..|reqs| - 1]), reqs[|reqs| - 1])
  }

  // ---------------------------------------------------------------- the registry

  /** Request `k` is the last one by which `c` joined or quit. */
  ghost predicate LastMove(reqs: seq<Message>, c: nat, k: nat) {
    && k < |reqs| && reqs[k].sender == c && (reqs[k].kind.Join? || reqs[k].kind.Quit?)
    && forall j | k < j < |reqs| :: !(reqs[j].sender == c && (reqs[j].kind.Join? || reqs[j].kind.Quit?))
  }

  ghost predicate LastJoin(reqs: seq<Message>, c: nat, k: nat) {
    && k < |reqs| && reqs[k].sender == c && reqs[k].kind.Join?
    && forall j | k < j < |reqs| :: !(reqs[j].sender == c && reqs[j].kind.Join?)
  }

  /** A client is in the room exactly if the last of its JOINs and QUITs was a JOIN. */
  lemma {:induction false} InRoomMeansJoined(reqs: seq<Message>, c: nat)
    requires AllFromClients(reqs) && IsClient(c)
    ensures RoomAfter(reqs)[c].live <==> exists k: nat :: LastMove(reqs, c, k) && reqs[k].kind.Join?
    decreases |reqs|
  {
    if reqs == [] {
    } else {
      var n := |reqs| - 1;
      var before := reqs[..n];
      InRoomMeansJoined(before, c);
      if reqs[n].sender == c && (reqs[n].kind.Join? || reqs[n].kind.Quit?) {
        assert LastMove(reqs, c, n);
      } else {
        assert forall k: nat :: LastMove(reqs, c, k) <==> LastMove(before, c, k) by {
          forall k: nat ensures LastMove(reqs, c, k) <==> LastMove(before, c, k) {
            if LastMove(reqs, c, k) {
              assert k < n;
              assert forall j | k < j < n :: before[j] == reqs[j];
            }
          }
        }
      }
    }
  }

  /** A client's registered name is that of its last JOIN, also after it has left. */
  lemma {:induction false} RegisteredNameIsLastJoined(reqs: seq<Message>, c: nat)
    requires AllFromClients(reqs) && IsClient(c)
    ensures forall k: nat | LastJoin(reqs, c, k) :: RoomAfter(reqs)[c].owner == reqs[k].name
    ensures (forall k: nat :: !LastJoin(reqs, c, k)) ==> RoomAfter(reqs)[c].owner == ""
    decreases |reqs|
  {
    if reqs == [] {
    } else {
      var n := |reqs| - 1;
      var before := reqs[..n];
      RegisteredNameIsLastJoined(before, c);
      if reqs[n].sender == c && reqs[n].kind.Join? {
        assert LastJoin(reqs, c, n);
      } else {
        forall k: nat ensures LastJoin(reqs, c, k) <==> LastJoin(before, c, k) {
          if LastJoin(reqs, c, k) {
            assert k < n;
            assert forall j | k < j < n :: before[j] == reqs[j];
          }
        }
      }
    }
  }

  // ---------------------------------------------------------------- LIST

  /** `ids` are the members of `s` below `i`, each once, in increasing order. */
  ghost predicate Enumerates(ids: seq<nat>, s: set<nat>, i: nat) {
    && (forall a, b | 0 <= a < b < |ids| :: ids[a] < ids[b])
    && (forall a | 0 <= a < |ids| :: ids[a] in s && ids[a] < i)
    && (forall x | x in s && x < i :: x in ids)
  }

  lemma {:induction false} RepliesEnumerateOthers(r: Room, req: Message, i: nat) returns (ids: seq<nat>)
    requires 1 <= i <= MAX_CLIENT + 1
    ensures Enumerates(ids, LiveSet(r) - {req.sender}, i)
    ensures |Replies(r, req, i)| == |ids| <= i - 1
    ensures IsClient(req.sender) && req.sender < i ==> |ids| <= i - 2
    ensures forall k | 0 <= k < |ids| ::
              Replies(r, req, i)[k] == Entry(Reply, ListReply(r, req, ids[k]), {req.sender})
    decreases i
  {
    if i == 1 {
      ids := [];
    } else {
      var below := RepliesEnumerateOthers(r, req, i - 1);
      if r[i - 1].live && i - 1 != req.sender {
        ids := below + [i - 1];
        forall x | x in LiveSet(r) - {req.sender} && x < i ensures x in ids {
          if x < i - 1 {
            assert x in below;
          } else {
            assert ids[|below|] == x;
          }
        }
      } else {
        ids := below;
      }
    }
  }

  /** A LIST is answered with exactly one message per other client in the room, in order of
      id, naming it, to the requester alone; at most 99 of them. */
  lemma ListAnswersForEveryOther(r: Room, req: Message)
    requires IsClient(req.sender) && req.kind.List?
    ensures exists ids :: Enumerates(ids, LiveSet(r) - {req.sender}, MAX_CLIENT + 1)
              && |Dispatches(r, req)| == |ids| <= MAX_CLIENT - 1
              && forall k | 0 <= k < |ids| ::
                   && Dispatches(r, req)[k].to == {req.sender}
                   && Dispatches(r, req)[k].msg
                      == Message(Server, req.sender, req.name, r[ids[k]].owner + " is inside the room")
  {
    var ids := RepliesEnumerateOthers(r, req, MAX_CLIENT + 1);
  }

  // ---------------------------------------------------------------- WHISPER

  /** A whisper meant for client `w`, who is in the room under that name, reaches it exactly
      if no lower id has, or ever had and left with, the same name; it then goes to `w` alone
      and carries the sender's registered name. */
  lemma WhisperReachesIff(r: Room, req: Message, w: nat)
    requires IsClient(req.sender) && req.kind.Whisper?
    requires IsClient(w) && r[w].live && r[w].owner == req.name
    ensures Dispatches(r, req) == [Entry(Private, Message(Whisper, req.sender, r[req.sender].owner, req.text), {w})]
            <==> forall i | 1 <= i < w :: r[i].owner != req.name
  {
    var f := FirstOwner(r, req.name, 1);
    if f != w {
      assert f in {f} && f !in {w};
    }
  }

  /** The stale name of a client that left hides a live client of the same name. */
  lemma StaleNameHidesLiveClient()
    ensures var reqs := [Message(Join, 1, "bob", ""), Message(Quit, 1, "bob", ""),
                         Message(Join, 2, "bob", ""), Message(Join, 3, "alice", "")];
            && RoomAfter(reqs)[2] == Session("bob", true)
            && !WhisperDefined(RoomAfter(reqs), Message(Whisper, 3, "bob", "hello"))
  {
    var reqs := [Message(Join, 1, "bob", ""), Message(Quit, 1, "bob", ""),
                 Message(Join, 2, "bob", ""), Message(Join, 3, "alice", "")];
    assert reqs[..3][..2] == reqs[..2] && reqs[..2][..1] == reqs[..1] && reqs[..1][..0] == [];
    assert RoomAfter(reqs[..1])[1] == Session("bob", true);
    assert RoomAfter(reqs[..2])[1] == Session("bob", false);
    assert RoomAfter(reqs[..3])[1] == Session("bob", false);
    assert RoomAfter(reqs)[1] == Session("bob", false);
  }
}
