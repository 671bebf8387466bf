/** The whole chat: the server loop, the sending and receiving threads of all clients, and the
    boxes between them, interleaved step by step.

    A send to, a receive from, and a full or empty test of one box are each one step; for the
    boxes with one producer and one consumer RingProtocol justifies that, for the server's
    box, which all clients write, it is assumed. A client that waits for room and then sends
    takes two steps, between which others may send.

    Assumed of the start of a client: sending JOIN and resetting its box is one step. A client
    can start again as soon as it has sent its QUIT, handled or not. A client asks for things
    only between its start and its QUIT. Boxes go by id. */
module ChatSystem {
  import opened ChatSpec
  import opened Runs

  /** A message in a client's box, stamped with its place in the server's dispatch log. */
  datatype Item = Item(stamp: nat, msg: Message)

  /** A client's sending thread: not there, reading input, waiting for room with a request, or
      past the test. */
  datatype Outbox = Off | Free | Wants(msg: Message) | Ready(msg: Message)

  /** A client and its box. The history of its present session: what it received, since which
      dispatch, and the stamps dropped on its full box. The history of its id: the requests
      that got into the server's box, and those lost. */
  datatype Member = Member(
    box: seq<Item>, reading: bool, out: Outbox,
    got: seq<Item>, since: nat, dropped: set<nat>,
    sent: seq<Message>, lost: seq<Message>)

  datatype Pc =
    | Idle
    | Casting(i: nat, msg: Message)
    | Listing(i: nat, req: Message, tested: bool)
    | Whispering(to: nat, msg: Message, tested: bool)
    | Undefined

  datatype State = State(
    room: Room, queue: seq<Message>, pc: Pc, members: seq<Member>,
    log: seq<Entry>, handled: seq<Message>)

  datatype Action =
    | Start(c: nat, name: string)
    | Ask(c: nat, msg: Message) | Test(c: nat) | Send(c: nat)
    | Receive(c: nat) | Stop(c: nat)
    | Serve

  ghost function Init(): (s: State)
    ensures Shape(s)
  {
    State(EmptyRoom(), [], Idle, seq(MAX_CLIENT + 1, _ => Member([], false, Off, [], 0, {}, [], [])), [], [])
  }

  ghost predicate Full(m: Member) {
    |m.box| == CAPACITY
  }

  ghost function Stream(m: Member): seq<Item> {
    m.got + m.box
  }

  /** What a user's input can become. */
  ghost predicate ByUser(kind: Kind) {
    kind.Broadcast? || kind.List? || kind.Whisper? || kind.Quit?
  }

  /** The dispatches that have come past client `c`: all of them, except the one just being
      sent to everybody if its turn is yet to come. */
  ghost function Past(s: State, c: nat): nat {
    if s.pc.Casting? && c >= s.pc.i && s.log != [] then |s.log| - 1 else |s.log|
  }

  ghost predicate MemberShape(c: nat, m: Member) {
    && |m.box| <= CAPACITY
    && (m.out.Wants? || m.out.Ready? ==> IsClient(c) && m.out.msg.sender == c && ByUser(m.out.msg.kind))
  }

  ghost predicate PcShape(pc: Pc, log: seq<Entry>) {
    match pc
    case Idle => true
    case Casting(i, _) => 1 <= i <= MAX_CLIENT + 1 && log != []
    case Listing(i, req, _) => 1 <= i <= MAX_CLIENT + 1 && IsClient(req.sender)
    case Whispering(to, msg, _) => IsClient(to) && IsClient(msg.sender)
    case Undefined => true
  }

  /** Bounds, and no claim about what is in the boxes. */
  ghost predicate Shape(s: State) {
    && |s.members| == MAX_CLIENT + 1
    && |s.queue| <= CAPACITY
    && AllFromClients(s.queue) && AllFromClients(s.handled)
    && (forall c | 0 <= c <= MAX_CLIENT :: MemberShape(c, s.members[c]))
    && PcShape(s.pc, s.log)
  }

  // ---------------------------------------------------------------- steps

  /** messagebox_send to a client's box; its return code is ignored. */
  ghost function Offered(m: Member, item: Item): Member {
    if Full(m) then m.(dropped := m.dropped + {item.stamp}) else m.(box := m.box + [item])
  }

  ghost function WithMember(s: State, c: nat, m: Member): (t: State)
    requires Shape(s) && IsClient(c) && MemberShape(c, m)
    ensures Shape(t)
  {
    s.(members := s.members[c := m])
  }

  ghost function Put(s: State, c: nat, item: Item): (t: State)
    requires Shape(s) && IsClient(c)
    ensures Shape(t)
  {
    WithMember(s, c, Offered(s.members[c], item))
  }

  /** The server takes a request from its box and enters the case for its type. */
  ghost function Begin(s: State): (t: State)
    requires Shape(s) && s.queue != []
    ensures Shape(t)
  {
    var req := s.queue[0];
    var t := s.(queue := s.queue[1..], handled := s.handled + [req]);
    match req.kind
    case Join =>
      var room := s.room[req.sender := Session(req.name, true)];
      var msg := Announcement(req, " has joined the room");
      t.(room := room, log := s.log + [Entry(ToAll, msg, LiveSet(room))], pc := Casting(1, msg))
    case Broadcast =>
      t.(log := s.log + [Entry(ToAll, req, LiveSet(s.room))], pc := Casting(1, req))
    case Quit =>
      var room := s.room[req.sender := s.room[req.sender].(live := false)];
      var msg := Announcement(req, " has left the room");
      t.(room := room, log := s.log + [Entry(ToAll, msg, LiveSet(room))], pc := Casting(1, msg))
    case List => t.(pc := Listing(1, req, false))
    case Whisper =>
      var to := FirstOwner(s.room, req.name, 1);
      if to <= MAX_CLIENT && s.room[to].live
      then t.(pc := Whispering(to, req.(name := s.room[req.sender].owner), false))
      else t.(pc := Undefined)
    case Server => t
  }

  /** client_boardcast: one client of the room per step. */
  ghost function Cast(s: State): (t: State)
    requires Shape(s) && s.pc.Casting?
    ensures Shape(t)
  {
    var Casting(i, msg) := s.pc;
    if i > MAX_CLIENT then s.(pc := Idle)
    else
      var t := if s.room[i].live then Put(s, i, Item(|s.log| - 1, msg)) else s;
      t.(pc := Casting(i + 1, msg))
  }

  /** The LIST loop; it waits for room in the requester's box before each reply. */
  ghost function Reply1(s: State): (t: State)
    requires Shape(s) && s.pc.Listing?
    ensures Shape(t)
  {
    var Listing(i, req, tested) := s.pc;
    if i > MAX_CLIENT then s.(pc := Idle)
    else if !s.room[i].live || i == req.sender then s.(pc := Listing(i + 1, req, false))
    else if !tested then (if Full(s.members[req.sender]) then s else s.(pc := Listing(i, req, true)))
    else
      var msg := ListReply(s.room, req, i);
      var t := Put(s, req.sender, Item(|s.log|, msg));
      t.(log := s.log + [Entry(Reply, msg, {req.sender})], pc := Listing(i + 1, req, false))
  }

  /** The end of a WHISPER; what is tested is the sender's box. */
  ghost function Deliver(s: State): (t: State)
    requires Shape(s) && s.pc.Whispering?
    ensures Shape(t)
  {
    var Whispering(to, msg, tested) := s.pc;
    if !tested then (if Full(s.members[msg.sender]) then s else s.(pc := Whispering(to, msg, true)))
    else
      var t := Put(s, to, Item(|s.log|, msg));
      t.(log := s.log + [Entry(Private, msg, {to})], pc := Idle)
  }

  /** A send to the server's box. */
  ghost function Post(s: State, c: nat, msg: Message): (t: State)
    requires Shape(s) && IsClient(c) && msg.sender == c
    ensures Shape(t)
  {
    var m := s.members[c];
    if |s.queue| == CAPACITY then WithMember(s, c, m.(lost := m.lost + [msg]))
    else WithMember(s, c, m.(sent := m.sent + [msg])).(queue := s.queue + [msg])
  }

  ghost predicate Enabled(s: State, a: Action)
    requires Shape(s)
  {
    match a
    case Start(c, _) => IsClient(c) && s.members[c].out.Off?
    case Ask(c, msg) => IsClient(c) && s.members[c].out.Free? && msg.sender == c && ByUser(msg.kind)
    case Test(c) => IsClient(c) && s.members[c].out.Wants?
    case Send(c) => IsClient(c) && s.members[c].out.Ready?
    case Receive(c) => IsClient(c) && s.members[c].reading && s.members[c].box != []
    case Stop(c) => IsClient(c) && s.members[c].reading
    case Serve => !s.pc.Undefined? && (s.pc.Idle? ==> s.queue != [])
  }

  ghost function ServerStep(s: State): (t: State)
    requires Shape(s) && Enabled(s, Serve)
    ensures Shape(t)
  {
    match s.pc
    case Idle => Begin(s)
    case Casting(_, _) => Cast(s)
    case Listing(_, _, _) => Reply1(s)
    case Whispering(_, _, _) => Deliver(s)
  }

  ghost function Do(s: State, a: Action): (t: State)
    requires Shape(s) && Enabled(s, a)
    ensures Shape(t)
  {
    match a
    case Start(c, name) =>
      var t := Post(s, c, Message(Join, c, name, ""));
      WithMember(t, c, t.members[c].(
        box := [], reading := true, out := Free, got := [], since := Past(s, c), dropped := {}))
    case Ask(c, msg) => WithMember(s, c, s.members[c].(out := Wants(msg)))
    case Test(c) =>
      if |s.queue| == CAPACITY then s
      else WithMember(s, c, s.members[c].(out := Ready(s.members[c].out.msg)))
    case Send(c) =>
      var t, msg := Post(s, c, s.members[c].out.msg), s.members[c].out.msg;
      WithMember(t, c, t.members[c].(out := if msg.kind.Quit? then Off else Free))
    case Receive(c) =>
      var m := s.members[c];
      WithMember(s, c, m.(box := m.box[1..], got := m.got + [m.box[0]]))
    case Stop(c) => WithMember(s, c, s.members[c].(reading := false))
    case Serve => ServerStep(s)
  }

  ghost predicate Possible(s: State, a: Action) {
    Shape(s) && Enabled(s, a)
  }

  ghost function Next(s: State, a: Action): State {
    if Possible(s, a) then Do(s, a) else s
  }

  ghost function Chat(): System<State, Action> {
    System(Possible, Next)
  }

  /** What holds at the start and is kept by every step holds in every reachable state. */
  lemma EveryReachable(inv: State -> bool, s: State, run: seq<Action>)
    requires forall s, a :: inv(s) && Possible(s, a) ==> inv(Next(s, a))
    requires inv(s) && Legal(Chat(), s, run)
    ensures inv(After(Chat(), s, run))
  {
    RunKeeps(Chat(), inv, s, run);
  }

  // for building runs piece by piece

  lemma Then(s: State, run: seq<Action>, a: Action) returns (more: seq<Action>)
    requires Legal(Chat(), s, run) && Possible(After(Chat(), s, run), a)
    ensures more == run + [a]
    ensures Legal(Chat(), s, more) && After(Chat(), s, more) == Next(After(Chat(), s, run), a)
  {
    OneStepMore(Chat(), s, run, a);
    more := run + [a];
  }

  lemma ThenRun(s: State, run: seq<Action>, rest: seq<Action>) returns (more: seq<Action>)
    requires Legal(Chat(), s, run) && Legal(Chat(), After(Chat(), s, run), rest)
    ensures more == run + rest
    ensures Legal(Chat(), s, more) && After(Chat(), s, more) == After(Chat(), After(Chat(), s, run), rest)
  {
    RunsCompose(Chat(), s, run, rest);
    more := run + rest;
  }
}
