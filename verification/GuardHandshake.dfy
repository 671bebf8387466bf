/** The guard-byte handshakes of the shm and the mmap program, at byte granularity.

    Both programs are the same protocol over one shared mapping whose byte 0 is the guard;
    they differ in where the payload starts. In the shm program it starts behind the guard,
    in the mmap program at the guard itself, so every memset overwrites the guard and every
    memcpy reads it. memset and memcpy touch their bytes in any order. Memory is sequentially
    consistent. */
module GuardHandshake {
  import opened Indexing
  import opened Runs
  import opened Turns

  datatype Params = Params(base: nat, size: nat, count: nat, mark: char) {
    /** Where byte `j` of the payload is in the mapping. */
    ghost function At(j: nat): nat {
      base + j
    }

    /** The guard is inside the mapping, and the client's filler is not one of the signals. */
    ghost predicate Ok() {
      base <= 1 && base + size >= 1 && mark != 's' && mark != 'c'
    }

    /** What the client must find in its copy of a round's message. */
    ghost function ForClient(): (r: seq<char>)
      ensures |r| == size
    {
      seq(size, j => if base + j == 0 then 'c' else '*')
    }

    /** What the server must find in its copy of the answer. */
    ghost function ForServer(): (r: seq<char>)
      ensures |r| == size
    {
      seq(size, j => if base + j == 0 then 's' else mark)
    }
  }

  /** `msg_size + 1` bytes with the payload behind the guard. */
  ghost function ShmProgram(size: nat, count: nat): (p: Params) {
    Params(1, size, count, '+')
  }

  /** `msg_size` bytes, the first of which is also the guard. */
  ghost function MmapProgram(size: nat, count: nat): (p: Params) {
    Params(0, size, count, '@')
  }

  datatype Server =
    | SStart | SFill(i: nat, todo: set<nat>) | SNotify(i: nat)
    | SWait(i: nat) | SCopy(i: nat, todo: set<nat>) | SDone

  datatype Client =
    | CStart | CWait(i: nat) | CCopy(i: nat, todo: set<nat>)
    | CFill(i: nat, todo: set<nat>) | CNotify(i: nat) | CDone

  datatype State = State(mem: seq<char>, server: Server, client: Client, sBuf: seq<char>, cBuf: seq<char>)

  /** Which process takes a step, and which byte if it is inside a memset or memcpy. */
  datatype Action = ByServer(j: nat) | ByClient(j: nat)

  /** Program points and buffers are within bounds; no claim about the protocol. */
  ghost predicate Wf(p: Params, s: State) {
    && p.Ok() && |s.mem| == p.base + p.size && |s.sBuf| == p.size && |s.cBuf| == p.size
    && ServerWf(p, s.server) && ClientWf(p, s.client)
  }

  ghost predicate ServerWf(p: Params, pc: Server) {
    match pc
    case SStart => true
    case SDone => true
    case SFill(i, todo) => i < p.count && todo <= Indices(p.size)
    case SCopy(i, todo) => i < p.count && todo <= Indices(p.size)
    case SNotify(i) => i < p.count
    case SWait(i) => i < p.count
  }

  ghost predicate ClientWf(p: Params, pc: Client) {
    match pc
    case CStart => true
    case CDone => true
    case CFill(i, todo) => i < p.count && todo <= Indices(p.size)
    case CCopy(i, todo) => i < p.count && todo <= Indices(p.size)
    case CNotify(i) => i < p.count
    case CWait(i) => i < p.count
  }

  ghost function ServerRound(p: Params, i: nat): Server {
    if i < p.count then SFill(i, Indices(p.size)) else SDone
  }

  ghost function ClientRound(p: Params, i: nat): Client {
    if i < p.count then CWait(i) else CDone
  }

  ghost predicate Enabled(p: Params, s: State, a: Action) {
    match a
    case ByServer(j) =>
      !s.server.SDone? &&
      (s.server.SFill? || s.server.SCopy? ==> s.server.todo == {} || j in s.server.todo)
    case ByClient(j) =>
      !s.client.CDone? &&
      (s.client.CFill? || s.client.CCopy? ==> s.client.todo == {} || j in s.client.todo)
  }

  /** A failed guard load: the process loops back to the same load. */
  ghost predicate Spins(p: Params, s: State, a: Action)
    requires Wf(p, s)
  {
    match a
    case ByServer(_) => (s.server.SStart? || s.server.SWait?) && s.mem[0] != 's'
    case ByClient(_) => s.client.CWait? && s.mem[0] != 'c'
  }

  ghost function ServerDo(p: Params, s: State, j: nat): (t: State)
    requires Wf(p, s) && Enabled(p, s, ByServer(j)) && !Spins(p, s, ByServer(j))
    ensures Wf(p, t) && t.client == s.client && t.cBuf == s.cBuf
  {
    match s.server
    case SStart => s.(server := ServerRound(p, 0))
    case SFill(i, todo) =>
      if todo == {} then s.(server := SNotify(i))
      else s.(mem := s.mem[p.At(j) := '*'], server := SFill(i, todo - {j}))
    case SNotify(i) => s.(mem := s.mem[0 := 'c'], server := SWait(i))
    case SWait(i) => s.(server := SCopy(i, Indices(p.size)))
    case SCopy(i, todo) =>
      if todo == {} then s.(server := ServerRound(p, i + 1))
      else s.(sBuf := s.sBuf[j := s.mem[p.At(j)]], server := SCopy(i, todo - {j}))
  }

  ghost function ClientDo(p: Params, s: State, j: nat): (t: State)
    requires Wf(p, s) && Enabled(p, s, ByClient(j)) && !Spins(p, s, ByClient(j))
    ensures Wf(p, t) && t.server == s.server && t.sBuf == s.sBuf
  {
    match s.client
    case CStart => s.(mem := s.mem[0 := 's'], client := ClientRound(p, 0))
    case CWait(i) => s.(client := CCopy(i, Indices(p.size)))
    case CCopy(i, todo) =>
      if todo == {} then s.(client := CFill(i, Indices(p.size)))
      else s.(cBuf := s.cBuf[j := s.mem[p.At(j)]], client := CCopy(i, todo - {j}))
    case CFill(i, todo) =>
      if todo == {} then s.(client := CNotify(i))
      else s.(mem := s.mem[p.At(j) := p.mark], client := CFill(i, todo - {j}))
    case CNotify(i) => s.(mem := s.mem[0 := 's'], client := ClientRound(p, i + 1))
  }

  ghost function Do(p: Params, s: State, a: Action): (t: State)
    requires Wf(p, s) && Enabled(p, s, a)
    ensures Wf(p, t)
  {
    if Spins(p, s, a) then s
    else if a.ByServer? then ServerDo(p, s, a.j)
    else ClientDo(p, s, a.j)
  }

  /** A turn ends with the notification that hands the mapping over. */
  ghost function Emits(s: State, a: Action): seq<Turn> {
    if a.ByServer? && s.server.SNotify? then [ServerTurn]
    else if a.ByClient? && s.client.CNotify? then [ClientTurn]
    else []
  }

  ghost predicate Start(p: Params, s: State) {
    Wf(p, s) && s.server.SStart? && s.client.CStart?
  }

  ghost predicate Finished(s: State) {
    s.server.SDone? && s.client.CDone?
  }

  ghost predicate Possible(p: Params, s: State, a: Action) {
    Wf(p, s) && Enabled(p, s, a)
  }

  ghost function Next(p: Params, s: State, a: Action): State {
    if Possible(p, s, a) then Do(p, s, a) else s
  }

  ghost function Handshake(p: Params): System<State, Action> {
    System((s, a) => Possible(p, s, a), (s, a) => Next(p, s, a))
  }

  ghost function Trace(p: Params, s: State, run: seq<Action>): seq<Turn>
    requires Legal(Handshake(p), s, run)
    decreases |run|
  {
    if run == [] then [] else Emits(s, run[0]) + Trace(p, Next(p, s, run[0]), run[1..])
  }

  /** The steps of a run other than failed guard loads. */
  ghost function Moves(p: Params, s: State, run: seq<Action>): nat
    requires Legal(Handshake(p), s, run)
    decreases |run|
  {
    if run == [] then 0
    else (if Spins(p, s, run[0]) then 0 else 1) + Moves(p, Next(p, s, run[0]), run[1..])
  }

  lemma {:induction false} MovesAdd(p: Params, s: State, first: seq<Action>, second: seq<Action>)
    requires Legal(Handshake(p), s, first + second) && Legal(Handshake(p), s, first)
    requires Legal(Handshake(p), After(Handshake(p), s, first), second)
    ensures Moves(p, s, first + second) == Moves(p, s, first) + Moves(p, After(Handshake(p), s, first), second)
    decreases |first|
  {
    if first == [] {
      assert first + second == second;
    } else {
      assert (first + second)[1..] == first[1..] + second;
      MovesAdd(p, Next(p, s, first[0]), first[1..], second);
    }
  }

  // ---------------------------------------------------------------- the invariant

  ghost predicate Filled(p: Params, s: State, ch: char, todo: set<nat>)
    requires Wf(p, s)
  {
    forall j: nat | j < p.size && j !in todo :: s.mem[p.At(j)] == ch
  }

  ghost predicate Payload(p: Params, s: State, expected: seq<char>)
    requires Wf(p, s) && |expected| == p.size
  {
    forall j: nat | j < p.size :: s.mem[p.At(j)] == expected[j]
  }

  ghost predicate Copied(buf: seq<char>, expected: seq<char>, todo: set<nat>)
    requires |buf| == |expected|
  {
    forall j: nat | j < |buf| && j !in todo :: buf[j] == expected[j]
  }

  /** Where the client can be, and what the guard and the payload hold, for each program
      point of the server. */
  ghost predicate Phase(p: Params, s: State)
    requires Wf(p, s)
  {
    match s.server
    case SStart =>
      (s.client.CStart? && s.mem[0] != 's') || (s.client == ClientRound(p, 0) && s.mem[0] == 's')
    case SFill(i, todo) => s.client == CWait(i) && s.mem[0] != 'c' && Filled(p, s, '*', todo)
    case SNotify(i) => s.client == CWait(i) && s.mem[0] != 'c' && Filled(p, s, '*', {})
    case SWait(i) => (
      match s.client
      case CStart => false
      case CWait(k) =>
        || (k == i && s.mem[0] == 'c' && Payload(p, s, p.ForClient()))
        || (k == i + 1 && s.mem[0] == 's' && Payload(p, s, p.ForServer()))
      case CCopy(k, todo) =>
        k == i && s.mem[0] == 'c' && Payload(p, s, p.ForClient()) && Copied(s.cBuf, p.ForClient(), todo)
      case CFill(k, todo) => k == i && s.mem[0] != 's' && Filled(p, s, p.mark, todo)
      case CNotify(k) => k == i && s.mem[0] != 's' && Filled(p, s, p.mark, {})
      case CDone => i + 1 == p.count && s.mem[0] == 's' && Payload(p, s, p.ForServer()))
    case SCopy(i, todo) =>
      && s.client == ClientRound(p, i + 1) && s.mem[0] == 's'
      && Payload(p, s, p.ForServer()) && Copied(s.sBuf, p.ForServer(), todo)
    case SDone => s.client.CDone?
  }

  /** The server has completed a copy and not begun the next. */
  ghost predicate ServerHolds(p: Params, pc: Server) {
    match pc
    case SFill(i, _) => i > 0
    case SNotify(i) => i > 0
    case SWait(i) => i > 0
    case SDone => p.count > 0
    case _ => false
  }

  ghost predicate ClientHolds(p: Params, pc: Client) {
    match pc
    case CWait(i) => i > 0
    case CFill(_, _) => true
    case CNotify(_) => true
    case CDone => p.count > 0
    case _ => false
  }

  /** A process that has completed a copy has the right bytes until it begins the next. */
  ghost predicate BuffersRight(p: Params, s: State) {
    && (ServerHolds(p, s.server) ==> s.sBuf == p.ForServer())
    && (ClientHolds(p, s.client) ==> s.cBuf == p.ForClient())
  }

  ghost predicate Inv(p: Params, s: State) {
    Wf(p, s) && Phase(p, s) && BuffersRight(p, s)
  }

  lemma ServerStepKeepsInv(p: Params, s: State, a: Action)
    requires Inv(p, s) && Enabled(p, s, a) && a.ByServer?
    ensures Inv(p, Do(p, s, a))
  {
    if s.server.SCopy? && s.server.todo == {} {
      assert s.sBuf == p.ForServer();
    }
  }

  lemma ClientStepKeepsInv(p: Params, s: State, a: Action)
    requires Inv(p, s) && Enabled(p, s, a) && a.ByClient?
    ensures Inv(p, Do(p, s, a))
  {
    if s.client.CCopy? && s.client.todo == {} {
      assert s.cBuf == p.ForClient();
    }
  }

  lemma StepKeepsInv(p: Params, s: State, a: Action)
    requires Inv(p, s) && Enabled(p, s, a)
    ensures Inv(p, Do(p, s, a))
  {
    if a.ByServer? {
      ServerStepKeepsInv(p, s, a);
    } else {
      ClientStepKeepsInv(p, s, a);
    }
  }

  lemma RunKeepsInv(p: Params, s: State, run: seq<Action>)
    requires Inv(p, s) && Legal(Handshake(p), s, run)
    ensures Inv(p, After(Handshake(p), s, run))
  {
    forall s, a | Inv(p, s) && Possible(p, s, a) ensures Inv(p, Next(p, s, a)) {
      StepKeepsInv(p, s, a);
    }
    RunKeeps(Handshake(p), s => Inv(p, s), s, run);
  }

  // ---------------------------------------------------------------- safety

  ghost function ServerTurns(p: Params, s: State): nat {
    match s.server
    case SStart => 0
    case SFill(i, _) => i
    case SNotify(i) => i
    case SWait(i) => i + 1
    case SCopy(i, _) => i + 1
    case SDone => p.count
  }

  ghost function ClientTurns(p: Params, s: State): nat {
    match s.client
    case CStart => 0
    case CWait(i) => i
    case CCopy(i, _) => i
    case CFill(i, _) => i
    case CNotify(i) => i
    case CDone => p.count
  }

  ghost predicate Safe(p: Params, s: State) {
    // the two processes are never both inside a memset or memcpy
    && !((s.server.SFill? || s.server.SCopy?) && (s.client.CFill? || s.client.CCopy?))
    // the server does not leave its opening wait before the client has started
    && (!s.server.SStart? ==> !s.client.CStart?)
    // nobody leaves a later wait before the other side has taken the turn it waits for
    && (s.server.SFill? || s.server.SCopy? ==> ClientTurns(p, s) == ServerTurns(p, s))
    && (s.client.CFill? || s.client.CCopy? ==> ServerTurns(p, s) == ClientTurns(p, s) + 1)
    // every completed copy has exactly the bytes the other side meant
    && BuffersRight(p, s)
  }

  lemma HandshakeIsSafe(p: Params, s: State, run: seq<Action>)
    requires Start(p, s) && s.mem[0] != 's' && Legal(Handshake(p), s, run)
    ensures Safe(p, After(Handshake(p), s, run))
  {
    RunKeepsInv(p, s, run);
  }

  // ---------------------------------------------------------------- the trace of turns

  ghost function Taken(p: Params, s: State): nat {
    ServerTurns(p, s) + ClientTurns(p, s)
  }

  lemma StepSimulatesTurns(p: Params, s: State, a: Action)
    requires Inv(p, s) && Enabled(p, s, a)
    ensures Accepts(p.count, Taken(p, s), Emits(s, a))
    ensures Taken(p, Do(p, s, a)) == Taken(p, s) + |Emits(s, a)|
  {
  }

  lemma {:induction false} RunSimulatesTurns(p: Params, s: State, run: seq<Action>)
    requires Inv(p, s) && Legal(Handshake(p), s, run)
    ensures Accepts(p.count, Taken(p, s), Trace(p, s, run))
    ensures Taken(p, After(Handshake(p), s, run)) == Taken(p, s) + |Trace(p, s, run)|
    decreases |run|
  {
    if run == [] {
    } else {
      StepSimulatesTurns(p, s, run[0]);
      StepKeepsInv(p, s, run[0]);
      var t := Next(p, s, run[0]);
      RunSimulatesTurns(p, t, run[1..]);
      AcceptsAppends(p.count, Taken(p, s), Emits(s, run[0]), Trace(p, t, run[1..]));
      assert Trace(p, s, run) == Emits(s, run[0]) + Trace(p, t, run[1..]);
    }
  }

  /** Every run is a run of the turn automaton, and every finished one is all the rounds. */
  lemma HandshakeAlternates(p: Params, s: State, run: seq<Action>)
    requires Start(p, s) && s.mem[0] != 's' && Legal(Handshake(p), s, run)
    ensures Accepts(p.count, 0, Trace(p, s, run))
    ensures Finished(After(Handshake(p), s, run)) ==> Trace(p, s, run) == Rounds(p.count)
  {
    RunSimulatesTurns(p, s, run);
    if Finished(After(Handshake(p), s, run)) {
      CompleteTraceIsRounds(p.count, 0, Trace(p, s, run));
    }
  }

  // ---------------------------------------------------------------- termination

  ghost function RoundCost(p: Params): nat {
    2 * p.size + 4
  }

  ghost function Later(p: Params, rounds: nat): nat {
    if rounds == 0 then 0 else RoundCost(p) + Later(p, rounds - 1)
  }

  lemma {:induction false} LaterIsProduct(p: Params, rounds: nat)
    ensures Later(p, rounds) == rounds * (2 * p.size + 4)
    decreases rounds
  {
    if rounds == 0 {
    } else {
      LaterIsProduct(p, rounds - 1);
    }
  }

  ghost function ServerLeft(p: Params, pc: Server): nat
    requires ServerWf(p, pc)
  {
    match pc
    case SStart => 1 + Later(p, p.count)
    case SFill(i, todo) => |todo| + p.size + 4 + Later(p, p.count - i - 1)
    case SNotify(i) => p.size + 3 + Later(p, p.count - i - 1)
    case SWait(i) => p.size + 2 + Later(p, p.count - i - 1)
    case SCopy(i, todo) => |todo| + 1 + Later(p, p.count - i - 1)
    case SDone => 0
  }

  ghost function ClientLeft(p: Params, pc: Client): nat
    requires ClientWf(p, pc)
  {
    match pc
    case CStart => 1 + Later(p, p.count)
    case CWait(i) => Later(p, p.count - i)
    case CCopy(i, todo) => |todo| + p.size + 3 + Later(p, p.count - i - 1)
    case CFill(i, todo) => |todo| + 2 + Later(p, p.count - i - 1)
    case CNotify(i) => 1 + Later(p, p.count - i - 1)
    case CDone => 0
  }

  /** The exact number of moves from `s` to the end. */
  ghost function Left(p: Params, s: State): nat
    requires Wf(p, s)
  {
    ServerLeft(p, s.server) + ClientLeft(p, s.client)
  }

  lemma ServerCountsDown(p: Params, s: State, j: nat)
    requires Wf(p, s) && Enabled(p, s, ByServer(j)) && !Spins(p, s, ByServer(j))
    ensures ServerLeft(p, ServerDo(p, s, j).server) == ServerLeft(p, s.server) - 1
  {
    var pc := ServerDo(p, s, j).server;
    if pc.SFill? && !s.server.SFill? {
      assert ServerLeft(p, pc) == 2 * p.size + 4 + Later(p, p.count - pc.i - 1);
    } else if (s.server.SFill? || s.server.SCopy?) && s.server.todo != {} {
      OneLess(s.server.todo, j);
    }
  }

  lemma ClientCountsDown(p: Params, s: State, j: nat)
    requires Wf(p, s) && Enabled(p, s, ByClient(j)) && !Spins(p, s, ByClient(j))
    ensures ClientLeft(p, ClientDo(p, s, j).client) == ClientLeft(p, s.client) - 1
  {
    var pc := ClientDo(p, s, j).client;
    if pc.CCopy? && !s.client.CCopy? {
      assert ClientLeft(p, pc) == 2 * p.size + 3 + Later(p, p.count - pc.i - 1);
    } else if (s.client.CFill? || s.client.CCopy?) && s.client.todo != {} {
      OneLess(s.client.todo, j);
    }
  }

  lemma StepCountsDown(p: Params, s: State, a: Action)
    requires Wf(p, s) && Enabled(p, s, a)
    ensures Spins(p, s, a) ==> Do(p, s, a) == s
    ensures !Spins(p, s, a) ==> Left(p, Do(p, s, a)) == Left(p, s) - 1
  {
    if !Spins(p, s, a) {
      if a.ByServer? {
        ServerCountsDown(p, s, a.j);
        assert ClientLeft(p, Do(p, s, a).client) == ClientLeft(p, s.client);
      } else {
        ClientCountsDown(p, s, a.j);
        assert ServerLeft(p, Do(p, s, a).server) == ServerLeft(p, s.server);
      }
    }
  }

  lemma NothingLeftMeansFinished(p: Params, s: State)
    requires Wf(p, s)
    ensures Left(p, s) == 0 <==> Finished(s)
  {
  }

  /** The step that is possible without spinning in a state that is not final. */
  ghost function Useful(p: Params, s: State): Action
    requires Inv(p, s) && !Finished(s)
  {
    if !s.server.SDone? && !Spins(p, s, ByServer(0)) then
      ByServer(if (s.server.SFill? || s.server.SCopy?) && s.server.todo != {} then PickFrom(s.server.todo) else 0)
    else
      ByClient(if (s.client.CFill? || s.client.CCopy?) && s.client.todo != {} then PickFrom(s.client.todo) else 0)
  }

  ghost function PickFrom(todo: set<nat>): (j: nat)
    requires todo != {}
    ensures j in todo
  {
    var j :| j in todo; j
  }

  lemma NeverStuck(p: Params, s: State)
    requires Inv(p, s) && !Finished(s)
    ensures Enabled(p, s, Useful(p, s)) && !Spins(p, s, Useful(p, s))
  {
  }

  /** Once the awaited signal is there, the other process cannot take it back. */
  lemma SignalStays(p: Params, s: State, a: Action)
    requires Inv(p, s) && Enabled(p, s, a)
    ensures (s.server.SStart? || s.server.SWait?) && a.ByClient? && s.mem[0] == 's' ==> Do(p, s, a).mem[0] == 's'
    ensures s.client.CWait? && a.ByServer? && s.mem[0] == 'c' ==> Do(p, s, a).mem[0] == 'c'
  {
  }

  lemma {:induction false} MovesCountDown(p: Params, s: State, run: seq<Action>)
    requires Wf(p, s) && Legal(Handshake(p), s, run)
    ensures Wf(p, After(Handshake(p), s, run))
    ensures Moves(p, s, run) + Left(p, After(Handshake(p), s, run)) == Left(p, s)
    decreases |run|
  {
    if run == [] {
    } else {
      StepCountsDown(p, s, run[0]);
      MovesCountDown(p, Next(p, s, run[0]), run[1..]);
    }
  }

  lemma {:induction false} CanFinish(p: Params, s: State) returns (run: seq<Action>)
    requires Inv(p, s)
    ensures Legal(Handshake(p), s, run) && Finished(After(Handshake(p), s, run)) && Moves(p, s, run) == |run|
    decreases Left(p, s)
  {
    NothingLeftMeansFinished(p, s);
    if Finished(s) {
      run := [];
    } else {
      var a := Useful(p, s);
      NeverStuck(p, s);
      StepCountsDown(p, s, a);
      StepKeepsInv(p, s, a);
      var rest := CanFinish(p, Next(p, s, a));
      run := [a] + rest;
      OneStepFirst(Handshake(p), s, a, rest);
      assert run[1..] == rest;
    }
  }

  /** However the two processes are scheduled, the number of moves is bounded by, and at the
      end equal to, a number fixed by the size and the count; and the end stays reachable. */
  lemma HandshakeTerminates(p: Params, s: State, run: seq<Action>)
    requires Start(p, s) && s.mem[0] != 's' && Legal(Handshake(p), s, run)
    ensures Moves(p, s, run) <= 2 + 2 * (p.count * (2 * p.size + 4))
    ensures Moves(p, s, run) == 2 + 2 * (p.count * (2 * p.size + 4)) <==> Finished(After(Handshake(p), s, run))
    ensures exists more :: Legal(Handshake(p), s, run + more) && Finished(After(Handshake(p), s, run + more))
  {
    LaterIsProduct(p, p.count);
    MovesCountDown(p, s, run);
    NothingLeftMeansFinished(p, After(Handshake(p), s, run));
    RunKeepsInv(p, s, run);
    var more := CanFinish(p, After(Handshake(p), s, run));
    RunsCompose(Handshake(p), s, run, more);
  }

  // ---------------------------------------------------------------- fairness

  type Schedule = Endless<State, Action>

  /** A process that has not come to its end is scheduled again. It can always take a step, so
      this is weak fairness. */
  ghost predicate WeaklyFair(r: Schedule) {
    forall k: nat ::
      && ((forall j: nat | k <= j :: !r.state(j).server.SDone?) ==> StepsSince(r, true, k))
      && ((forall j: nat | k <= j :: !r.state(j).client.CDone?) ==> StepsSince(r, false, k))
  }

  ghost predicate StepsSince(r: Schedule, byServer: bool, k: nat) {
    exists i: nat :: k <= i && r.step(i).ByServer? == byServer
  }

  ghost predicate NeverEnds(p: Params, s: State, r: Schedule) {
    Inv(p, s) && Follows(Handshake(p), Finished, s, r) && forall k: nat :: !Finished(r.state(k))
  }

  lemma StepOf(p: Params, s: State, r: Schedule, k: nat)
    requires NeverEnds(p, s, r)
    ensures Inv(p, r.state(k)) && Enabled(p, r.state(k), r.step(k))
    ensures r.state(k + 1) == Do(p, r.state(k), r.step(k))
  {
    forall s, a | Inv(p, s) && Possible(p, s, a) ensures Inv(p, Next(p, s, a)) {
      StepKeepsInv(p, s, a);
    }
    AllAlong(Handshake(p), s => Inv(p, s), Finished, s, r, k);
    assert Takes(Handshake(p), Finished, r, k);
  }

  ghost predicate SpinsFrom(p: Params, s: State, r: Schedule, k: nat)
    requires NeverEnds(p, s, r)
  {
    forall i: nat | k <= i :: SpinsAt(p, s, r, i)
  }

  ghost predicate SpinsAt(p: Params, s: State, r: Schedule, i: nat)
    requires NeverEnds(p, s, r)
  {
    StepOf(p, s, r, i);
    Spins(p, r.state(i), r.step(i))
  }

  lemma SpinsThen(p: Params, s: State, r: Schedule, k: nat, i: nat)
    requires NeverEnds(p, s, r) && SpinsFrom(p, s, r, k) && k <= i
    ensures Inv(p, r.state(i)) && Enabled(p, r.state(i), r.step(i)) && Spins(p, r.state(i), r.step(i))
    ensures r.state(i + 1) == r.state(i)
  {
    StepOf(p, s, r, i);
    assert SpinsAt(p, s, r, i);
  }

  lemma {:induction false} SpinningChangesNothing(p: Params, s: State, r: Schedule, k: nat, j: nat)
    requires NeverEnds(p, s, r) && SpinsFrom(p, s, r, k) && k <= j
    ensures r.state(j) == r.state(k)
    decreases j
  {
    if j == k {
    } else {
      SpinningChangesNothing(p, s, r, k, j - 1);
      SpinsThen(p, s, r, k, j - 1);
    }
  }

  /** A fair scheduler does not let both processes spin for ever. */
  lemma SomebodyMoves(p: Params, s: State, r: Schedule, k: nat)
    requires NeverEnds(p, s, r) && WeaklyFair(r)
    ensures !SpinsFrom(p, s, r, k)
  {
    if SpinsFrom(p, s, r, k) {
      StepOf(p, s, r, k);
      NeverStuck(p, r.state(k));
      var a := Useful(p, r.state(k));
      forall j: nat | k <= j ensures r.state(j) == r.state(k) {
        SpinningChangesNothing(p, s, r, k, j);
      }
      assert StepsSince(r, a.ByServer?, k);
      var i: nat :| k <= i && r.step(i).ByServer? == a.ByServer?;
      SpinsThen(p, s, r, k, i);
      assert false;
    }
  }

  lemma {:induction false} LeftNeverGrows(p: Params, s: State, r: Schedule, k: nat, j: nat)
    requires NeverEnds(p, s, r) && k <= j
    ensures Inv(p, r.state(k)) && Inv(p, r.state(j)) && Left(p, r.state(j)) <= Left(p, r.state(k))
    decreases j
  {
    StepOf(p, s, r, k);
    if j == k {
    } else {
      LeftNeverGrows(p, s, r, k, j - 1);
      StepOf(p, s, r, j - 1);
      StepOf(p, s, r, j);
      StepCountsDown(p, r.state(j - 1), r.step(j - 1));
    }
  }

  lemma {:induction false} LeftRunsOut(p: Params, s: State, r: Schedule, k: nat)
    requires NeverEnds(p, s, r) && WeaklyFair(r) && Inv(p, r.state(k))
    ensures false
    decreases Left(p, r.state(k))
  {
    SomebodyMoves(p, s, r, k);
    var i: nat :| k <= i && !SpinsAt(p, s, r, i);
    LeftNeverGrows(p, s, r, k, i);
    StepOf(p, s, r, i);
    StepCountsDown(p, r.state(i), r.step(i));
    StepOf(p, s, r, i + 1);
    LeftRunsOut(p, s, r, i + 1);
  }

  /** Under every weakly fair scheduler the handshake comes to an end. */
  lemma WeakFairnessSuffices(p: Params, s: State, r: Schedule)
    requires Start(p, s) && s.mem[0] != 's'
    requires Follows(Handshake(p), Finished, s, r) && WeaklyFair(r)
    ensures exists k: nat :: Finished(r.state(k))
  {
    if forall k: nat :: !Finished(r.state(k)) {
      LeftRunsOut(p, s, r, 0);
    }
  }

  // ---------------------------------------------------------------- the start-up condition

  lemma {:induction false} FillToTheEnd(p: Params, s: State) returns (run: seq<Action>)
    requires Wf(p, s) && s.server.SFill? && Filled(p, s, '*', s.server.todo)
    ensures Legal(Handshake(p), s, run)
    ensures var t := After(Handshake(p), s, run);
            Wf(p, t) && t.server == SNotify(s.server.i) && t.client == s.client && Filled(p, t, '*', {})
    decreases |s.server.todo|
  {
    var a := ByServer(if s.server.todo == {} then 0 else PickFrom(s.server.todo));
    var t := Next(p, s, a);
    var rest := [];
    if t.server.SFill? {
      rest := FillToTheEnd(p, t);
    }
    OneStepFirst(Handshake(p), s, a, rest);
    run := [a] + rest;
  }

  ghost predicate CopiesMemory(p: Params, s: State, todo: set<nat>)
    requires Wf(p, s)
  {
    forall j: nat | j < p.size && j !in todo :: s.sBuf[j] == s.mem[p.At(j)]
  }

  lemma {:induction false} CopyToTheEnd(p: Params, s: State) returns (run: seq<Action>)
    requires Wf(p, s) && s.server.SCopy? && CopiesMemory(p, s, s.server.todo)
    ensures Legal(Handshake(p), s, run)
    ensures var t := After(Handshake(p), s, run);
            && Wf(p, t) && t.server == SCopy(s.server.i, {}) && t.client == s.client
            && t.mem == s.mem && CopiesMemory(p, t, {})
    decreases |s.server.todo|
  {
    run := [];
    if s.server.todo != {} {
      var a := ByServer(PickFrom(s.server.todo));
      var rest := CopyToTheEnd(p, Next(p, s, a));
      OneStepFirst(Handshake(p), s, a, rest);
      run := [a] + rest;
    }
  }

  /** The server sets its message up and hands over, the client starts, and the server takes the
      client's opening store for the answer. */
  lemma StartAfterNotify(p: Params, s: State) returns (run: seq<Action>)
    requires Wf(p, s) && s.server == SNotify(0) && s.client.CStart? && p.count > 0 && Filled(p, s, '*', {})
    ensures Legal(Handshake(p), s, run)
    ensures var t := After(Handshake(p), s, run);
            && Wf(p, t) && t.server == SCopy(0, Indices(p.size)) && t.client == CWait(0)
            && forall j: nat | j < p.size && p.At(j) != 0 :: t.mem[p.At(j)] == '*'
  {
    var s1 := Next(p, s, ByServer(0));
    var s2 := Next(p, s1, ByClient(0));
    OneStepFirst(Handshake(p), s2, ByServer(0), []);
    OneStepFirst(Handshake(p), s1, ByClient(0), [ByServer(0)] + []);
    OneStepFirst(Handshake(p), s, ByServer(0), [ByClient(0)] + ([ByServer(0)] + []));
    run := [ByServer(0)] + ([ByClient(0)] + ([ByServer(0)] + []));
  }

  /** A leftover 's' lets the server through; it sets up its message, takes the client's opening
      store for the answer, and copies its own '*'s as the reply of a client that has not taken
      a turn. */
  lemma StaleSignalBreaks(p: Params, s: State) returns (run: seq<Action>)
    requires Start(p, s) && s.mem[0] == 's' && p.count > 0
    ensures Legal(Handshake(p), s, run)
    ensures var t := After(Handshake(p), s, run);
            && Wf(p, t) && !Safe(p, t)
            && t.server == SCopy(0, {}) && t.client == CWait(0)
            && forall j: nat | j < p.size && p.At(j) != 0 :: t.sBuf[j] == '*'
  {
    var s1 := Next(p, s, ByServer(0));
    var fill := FillToTheEnd(p, s1);
    var s2 := After(Handshake(p), s1, fill);
    var turn := StartAfterNotify(p, s2);
    var s3 := After(Handshake(p), s2, turn);
    var copy := CopyToTheEnd(p, s3);
    RunsCompose(Handshake(p), s2, turn, copy);
    RunsCompose(Handshake(p), s1, fill, turn + copy);
    OneStepFirst(Handshake(p), s, ByServer(0), fill + (turn + copy));
    run := [ByServer(0)] + (fill + (turn + copy));
    var t := After(Handshake(p), s, run);
    forall j: nat | j < p.size && p.At(j) != 0 ensures t.sBuf[j] == '*' {
      assert t.sBuf[j] == t.mem[p.At(j)] == s3.mem[p.At(j)];
    }
  }

  /** The protocol needs its segment fresh, and needs nothing else: a leftover 's' lets the
      server out of its opening wait before there is a client. */
  lemma SafeExactlyWhenFresh(p: Params, s: State)
    requires Start(p, s)
    ensures (forall run :: Legal(Handshake(p), s, run) ==> Safe(p, After(Handshake(p), s, run))) <==> s.mem[0] != 's'
  {
    if s.mem[0] == 's' {
      OneStepFirst(Handshake(p), s, ByServer(0), []);
      assert !Safe(p, After(Handshake(p), s, [ByServer(0)] + []));
    } else {
      forall run | Legal(Handshake(p), s, run) ensures Safe(p, After(Handshake(p), s, run)) {
        HandshakeIsSafe(p, s, run);
      }
    }
  }

  // ---------------------------------------------------------------- the two programs

  /** mmap: whenever a copy is complete, the client's is exactly a 'c' then '*'s, the server's an
      's' then '@'s, although every fill goes over the guard. */
  lemma MmapCopies(size: nat, count: nat, s: State, run: seq<Action>)
    requires size >= 1
    requires var p := MmapProgram(size, count); Start(p, s) && s.mem[0] != 's' && Legal(Handshake(p), s, run)
    ensures var p := MmapProgram(size, count); var t := After(Handshake(p), s, run);
            && Wf(p, t)
            && (ClientHolds(p, t.client) ==> t.cBuf[0] == 'c' && forall j | 1 <= j < size :: t.cBuf[j] == '*')
            && (ServerHolds(p, t.server) ==> t.sBuf[0] == 's' && forall j | 1 <= j < size :: t.sBuf[j] == '@')
  {
    RunKeepsInv(MmapProgram(size, count), s, run);
  }

  /** shm: the client's is only '*'s, the server's only '+'s. */
  lemma ShmCopies(size: nat, count: nat, s: State, run: seq<Action>)
    requires var p := ShmProgram(size, count); Start(p, s) && s.mem[0] != 's' && Legal(Handshake(p), s, run)
    ensures var p := ShmProgram(size, count); var t := After(Handshake(p), s, run);
            && Wf(p, t)
            && (ClientHolds(p, t.client) ==> forall j | 0 <= j < size :: t.cBuf[j] == '*')
            && (ServerHolds(p, t.server) ==> forall j | 0 <= j < size :: t.sBuf[j] == '+')
  {
    RunKeepsInv(ShmProgram(size, count), s, run);
  }
}
