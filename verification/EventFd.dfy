/** The token handshake through an eventfd counter. A process may read back the token meant
    for the other one; it then writes it back and tries again. */
module EventFd {
  import opened Runs
  import opened Turns

  const SERVER_TOKEN := 1
  const CLIENT_TOKEN := 2
  /** The largest value an eventfd counter can hold; a write that would exceed it blocks. */
  const COUNTER_MAX := 0xFFFF_FFFF_FFFF_FFFE

  datatype Server = SRead(i: nat) | SWriteBack(i: nat, val: nat) | SNotify(i: nat) | SDone
  datatype Client = CNotify(i: nat) | CRead(i: nat) | CWriteBack(i: nat, val: nat) | CDone
  datatype State = State(counter: nat, server: Server, client: Client)
  datatype Process = TheServer | TheClient

  ghost function ServerRound(n: nat, i: nat): Server {
    if i < n then SRead(i) else SDone
  }

  ghost function ClientRound(n: nat, i: nat): Client {
    if i < n then CNotify(i) else CDone
  }

  ghost function Start(n: nat): State {
    State(0, ServerRound(n, 0), ClientRound(n, 0))
  }

  ghost predicate Finished(s: State) {
    s.server.SDone? && s.client.CDone?
  }

  /** A read blocks on zero, a write on a counter that is too full. */
  ghost predicate Enabled(s: State, a: Process) {
    match a
    case TheServer => (
      match s.server
      case SRead(_) => s.counter > 0
      case SWriteBack(_, v) => s.counter + v <= COUNTER_MAX
      case SNotify(_) => s.counter + CLIENT_TOKEN <= COUNTER_MAX
      case SDone => false)
    case TheClient => (
      match s.client
      case CNotify(_) => s.counter + SERVER_TOKEN <= COUNTER_MAX
      case CRead(_) => s.counter > 0
      case CWriteBack(_, v) => s.counter + v <= COUNTER_MAX
      case CDone => false)
  }

  /** One read or write call; a read empties the counter, a write adds to it. */
  ghost function Do(n: nat, s: State, a: Process): State
    requires Enabled(s, a)
  {
    match a
    case TheServer => (
      match s.server
      case SRead(i) =>
        State(0, if s.counter == SERVER_TOKEN then SNotify(i) else SWriteBack(i, s.counter), s.client)
      case SWriteBack(i, v) => State(s.counter + v, SRead(i), s.client)
      case SNotify(i) => State(s.counter + CLIENT_TOKEN, ServerRound(n, i + 1), s.client))
    case TheClient => (
      match s.client
      case CNotify(i) => State(s.counter + SERVER_TOKEN, s.server, CRead(i))
      case CRead(i) =>
        State(0, s.server, if s.counter == CLIENT_TOKEN then ClientRound(n, i + 1) else CWriteBack(i, s.counter))
      case CWriteBack(i, v) => State(s.counter + v, s.server, CRead(i)))
  }

  ghost predicate IsPutBack(s: State, a: Process) {
    (a.TheServer? && s.server.SWriteBack?) || (a.TheClient? && s.client.CWriteBack?)
  }

  /** The server's turn ends with its notification, the client's with its receipt. */
  ghost function Emits(s: State, a: Process): seq<Turn> {
    if a.TheServer? && s.server.SNotify? then [ServerTurn]
    else if a.TheClient? && s.client.CRead? && s.counter == CLIENT_TOKEN then [ClientTurn]
    else []
  }

  ghost function Next(n: nat, s: State, a: Process): State {
    if Enabled(s, a) then Do(n, s, a) else s
  }

  ghost function Pair(n: nat): System<State, Process> {
    System((s, a) => Enabled(s, a), (s, a) => Next(n, s, a))
  }

  ghost function Trace(n: nat, s: State, run: seq<Process>): seq<Turn>
    requires Legal(Pair(n), s, run)
    decreases |run|
  {
    if run == [] then [] else Emits(s, run[0]) + Trace(n, Next(n, s, run[0]), run[1..])
  }

  ghost function PutBacks(n: nat, s: State, run: seq<Process>): nat
    requires Legal(Pair(n), s, run)
    decreases |run|
  {
    if run == [] then 0
    else (if IsPutBack(s, run[0]) then 1 else 0) + PutBacks(n, Next(n, s, run[0]), run[1..])
  }

  lemma {:induction false} PutBacksAdd(n: nat, s: State, first: seq<Process>, second: seq<Process>)
    requires Legal(Pair(n), s, first + second) && Legal(Pair(n), s, first)
    requires Legal(Pair(n), After(Pair(n), s, first), second)
    ensures PutBacks(n, s, first + second) == PutBacks(n, s, first) + PutBacks(n, After(Pair(n), s, first), second)
    decreases |first|
  {
    if first == [] {
      assert first + second == second;
    } else {
      assert (first + second)[1..] == first[1..] + second;
      PutBacksAdd(n, Next(n, s, first[0]), first[1..], second);
    }
  }

  // ---------------------------------------------------------------- one token

  /** Every reachable state is one of these six, or the end: where the token is decides where
      both processes are. */
  ghost predicate Inv(n: nat, s: State) {
    match s.client
    case CNotify(i) => i < n && s.server == SRead(i) && s.counter == 0
    case CRead(i) =>
      && i < n
      && (match s.server
         case SRead(k) =>
           (k == i && s.counter == SERVER_TOKEN) || (k == i + 1 && k < n && s.counter == CLIENT_TOKEN)
         case SNotify(k) => k == i && s.counter == 0
         case SWriteBack(k, v) => k == i + 1 && k < n && v == CLIENT_TOKEN && s.counter == 0
         case SDone => i + 1 == n && s.counter == CLIENT_TOKEN)
    case CWriteBack(i, v) => i < n && v == SERVER_TOKEN && s.server == SRead(i) && s.counter == 0
    case CDone => s.server.SDone? && s.counter == 0
  }

  lemma StepKeepsInv(n: nat, s: State, a: Process)
    requires Inv(n, s) && Enabled(s, a)
    ensures Inv(n, Do(n, s, a))
  {
  }

  lemma RunKeepsInv(n: nat, s: State, run: seq<Process>)
    requires Inv(n, s) && Legal(Pair(n), s, run)
    ensures Inv(n, After(Pair(n), s, run))
  {
    forall s, a | Inv(n, s) && Enabled(s, a) ensures Inv(n, Next(n, s, a)) {
      StepKeepsInv(n, s, a);
    }
    RunKeeps(Pair(n), s => Inv(n, s), s, run);
  }

  /** The tokens in the counter and in the two processes' hands. */
  ghost function Tokens(s: State): multiset<nat> {
    (if s.counter == 0 then multiset{} else multiset{s.counter})
    + (match s.server
       case SWriteBack(_, v) => multiset{v}
       case SNotify(_) => multiset{CLIENT_TOKEN}
       case _ => multiset{})
    + (match s.client
       case CWriteBack(_, v) => multiset{v}
       case CNotify(_) => multiset{SERVER_TOKEN}
       case _ => multiset{})
  }

  /** A process's loop index; it is the count once its loop has ended. */
  ghost function ServerIndex(n: nat, s: State): nat {
    if s.server.SDone? then n else s.server.i
  }

  ghost function ClientIndex(n: nat, s: State): nat {
    if s.client.CDone? then n else s.client.i
  }

  /** At every moment of every run there is exactly one token, until none is left at the end;
      so the counter is never a sum of tokens, and the token's kind says how the two loop
      indices compare. */
  lemma OneToken(n: nat, run: seq<Process>)
    requires Legal(Pair(n), Start(n), run)
    ensures var s := After(Pair(n), Start(n), run);
            && s.counter <= 2
            && (Finished(s) ==> s.counter == 0)
            && (!Finished(s) ==> Tokens(s) == multiset{SERVER_TOKEN} || Tokens(s) == multiset{CLIENT_TOKEN})
            && (Tokens(s) == multiset{SERVER_TOKEN} ==> ServerIndex(n, s) == ClientIndex(n, s))
            && (Tokens(s) == multiset{CLIENT_TOKEN} ==>
                  ServerIndex(n, s) == ClientIndex(n, s) + (if s.server.SNotify? then 0 else 1))
  {
    RunKeepsInv(n, Start(n), run);
    var s := After(Pair(n), Start(n), run);
    var one, two := multiset{SERVER_TOKEN as nat}, multiset{CLIENT_TOKEN as nat};
    assert one[SERVER_TOKEN] == 1 && two[SERVER_TOKEN] == 0;
  }

  // ---------------------------------------------------------------- the trace of turns

  ghost function Taken(n: nat, s: State): nat {
    ServerIndex(n, s) + ClientIndex(n, s)
  }

  lemma StepSimulatesTurns(n: nat, s: State, a: Process)
    requires Inv(n, s) && Enabled(s, a)
    ensures Accepts(n, Taken(n, s), Emits(s, a))
    ensures Taken(n, Do(n, s, a)) == Taken(n, s) + |Emits(s, a)|
  {
  }

  lemma {:induction false} RunSimulatesTurns(n: nat, s: State, run: seq<Process>)
    requires Inv(n, s) && Legal(Pair(n), s, run)
    ensures Accepts(n, Taken(n, s), Trace(n, s, run))
    ensures Taken(n, After(Pair(n), s, run)) == Taken(n, s) + |Trace(n, s, run)|
    decreases |run|
  {
    if run == [] {
    } else {
      StepSimulatesTurns(n, s, run[0]);
      StepKeepsInv(n, s, run[0]);
      var t := Next(n, s, run[0]);
      RunSimulatesTurns(n, t, run[1..]);
      AcceptsAppends(n, Taken(n, s), Emits(s, run[0]), Trace(n, t, run[1..]));
    }
  }

  lemma TokensAlternate(n: nat, run: seq<Process>)
    requires Legal(Pair(n), Start(n), run)
    ensures Accepts(n, 0, Trace(n, Start(n), run))
    ensures Finished(After(Pair(n), Start(n), run)) ==> Trace(n, Start(n), run) == Rounds(n)
  {
    RunSimulatesTurns(n, Start(n), run);
    if Finished(After(Pair(n), Start(n), run)) {
      CompleteTraceIsRounds(n, 0, Trace(n, Start(n), run));
    }
  }

  // ---------------------------------------------------------------- counting calls

  /** The calls that were needed to get to `s`, put-backs aside. */
  ghost function Needed(n: nat, s: State): nat {
    (match s.server
     case SRead(i) => 2 * i
     case SWriteBack(i, _) => 2 * i
     case SNotify(i) => 2 * i + 1
     case SDone => 2 * n)
    + (match s.client
       case CNotify(i) => 2 * i
       case CRead(i) => 2 * i + 1
       case CWriteBack(i, _) => 2 * i + 1
       case CDone => 2 * n)
  }

  ghost function InHand(s: State): nat {
    if s.server.SWriteBack? || s.client.CWriteBack? then 1 else 0
  }

  lemma {:induction false} CallsAreCounted(n: nat, s: State, run: seq<Process>)
    requires Inv(n, s) && Legal(Pair(n), s, run)
    ensures var t := After(Pair(n), s, run);
            Needed(n, s) + InHand(s) + |run| == Needed(n, t) + InHand(t) + 2 * PutBacks(n, s, run)
    decreases |run|
  {
    if run == [] {
    } else {
      StepKeepsInv(n, s, run[0]);
      CallsAreCounted(n, Next(n, s, run[0]), run[1..]);
    }
  }

  /** Put-backs are the only way not to come to an end: a run of n rounds with k put-backs has at
      most 4n + 2k calls, and that many exactly if it is finished. */
  lemma RunLength(n: nat, run: seq<Process>)
    requires Legal(Pair(n), Start(n), run)
    ensures |run| <= 4 * n + 2 * PutBacks(n, Start(n), run)
    ensures |run| == 4 * n + 2 * PutBacks(n, Start(n), run) <==> Finished(After(Pair(n), Start(n), run))
  {
    CallsAreCounted(n, Start(n), run);
    RunKeepsInv(n, Start(n), run);
  }

  /** A finished run of n rounds with k put-backs made exactly 4n + 2k calls. */
  lemma FinishedRunLength(n: nat, run: seq<Process>)
    requires Legal(Pair(n), Start(n), run) && Finished(After(Pair(n), Start(n), run))
    ensures |run| == 4 * n + 2 * PutBacks(n, Start(n), run)
    ensures After(Pair(n), Start(n), run).counter == 0
  {
    CallsAreCounted(n, Start(n), run);
    RunKeepsInv(n, Start(n), run);
  }

  /** The process whose call moves the handshake on. */
  ghost function Useful(s: State): Process {
    match s.client
    case CNotify(_) => TheClient
    case CRead(_) => if s.server.SDone? || s.counter == CLIENT_TOKEN then TheClient else TheServer
    case CWriteBack(_, _) => TheClient
    case CDone => TheServer
  }

  ghost function ToGo(n: nat, s: State): int {
    2 * (4 * n - Needed(n, s)) + InHand(s)
  }

  lemma UsefulStep(n: nat, s: State)
    requires Inv(n, s) && !Finished(s)
    ensures Enabled(s, Useful(s)) && Inv(n, Next(n, s, Useful(s)))
    ensures 0 <= ToGo(n, Next(n, s, Useful(s))) < ToGo(n, s)
  {
    StepKeepsInv(n, s, Useful(s));
  }

  lemma {:induction false} CanFinish(n: nat, s: State) returns (run: seq<Process>)
    requires Inv(n, s)
    ensures Legal(Pair(n), s, run) && Finished(After(Pair(n), s, run))
    decreases ToGo(n, s)
  {
    if Finished(s) {
      run := [];
    } else {
      var a := Useful(s);
      UsefulStep(n, s);
      var rest := CanFinish(n, Next(n, s, a));
      run := [a] + rest;
      OneStepFirst(Pair(n), s, a, rest);
    }
  }

  /** No reachable state is stuck, and from each one the end can be reached. */
  lemma NeverDeadlocked(n: nat, run: seq<Process>)
    requires Legal(Pair(n), Start(n), run)
    ensures var s := After(Pair(n), Start(n), run);
            !Finished(s) ==> Enabled(s, TheServer) || Enabled(s, TheClient)
    ensures exists more :: Legal(Pair(n), Start(n), run + more) && Finished(After(Pair(n), Start(n), run + more))
  {
    RunKeepsInv(n, Start(n), run);
    var more := CanFinish(n, After(Pair(n), Start(n), run));
    RunsCompose(Pair(n), Start(n), run, more);
  }

  /** Nothing bounds the number of put-backs: the scheduler can let the client read its own
      token again and again. So the length of a run has no bound. */
  lemma {:induction false} PutBacksUnbounded(n: nat, k: nat) returns (run: seq<Process>)
    requires n >= 1
    ensures Legal(Pair(n), Start(n), run) && PutBacks(n, Start(n), run) == k
    ensures After(Pair(n), Start(n), run) == State(SERVER_TOKEN, SRead(0), CRead(0))
  {
    if k == 0 {
      run := [TheClient];
      assert run[1..] == [];
    } else {
      var before := PutBacksUnbounded(n, k - 1);
      var s := State(SERVER_TOKEN, SRead(0), CRead(0));
      var again := [TheClient, TheClient];
      assert again[1..] == [TheClient] && [TheClient][1..] == [];
      var t := Next(n, s, TheClient);
      assert Next(n, t, TheClient) == s;
      assert Legal(Pair(n), t, [TheClient]) && After(Pair(n), t, [TheClient]) == s;
      assert Legal(Pair(n), s, again) && After(Pair(n), s, again) == s && PutBacks(n, s, again) == 1;
      RunsCompose(Pair(n), Start(n), before, again);
      PutBacksAdd(n, Start(n), before, again);
      run := before + again;
    }
  }

  // ---------------------------------------------------------------- fairness

  type Schedule = Endless<State, Process>

  ghost predicate Running(n: nat, r: Schedule) {
    Follows(Pair(n), Finished, Start(n), r)
  }

  /** A process that can call from some moment on without interruption does call again. */
  ghost predicate WeaklyFair(r: Schedule) {
    forall a: Process, k: nat ::
      (forall j: nat | k <= j :: Enabled(r.state(j), a)) ==> CallsSince(r, a, k)
  }

  /** A process that can call again and again does call again. */
  ghost predicate StronglyFair(r: Schedule) {
    forall a: Process, k: nat ::
      (forall j: nat | k <= j :: CanCallSince(r, a, j)) ==> CallsSince(r, a, k)
  }

  ghost predicate CallsSince(r: Schedule, a: Process, k: nat) {
    exists i: nat :: k <= i && r.step(i) == a
  }

  ghost predicate CanCallSince(r: Schedule, a: Process, k: nat) {
    exists i: nat :: k <= i && Enabled(r.state(i), a)
  }

  ghost predicate NeverEnds(r: Schedule) {
    forall k: nat :: !Finished(r.state(k))
  }

  lemma Call(n: nat, r: Schedule, k: nat)
    requires Running(n, r) && NeverEnds(r)
    ensures Inv(n, r.state(k)) && Enabled(r.state(k), r.step(k))
    ensures r.state(k + 1) == Do(n, r.state(k), r.step(k))
  {
    forall s, a | Inv(n, s) && Enabled(s, a) ensures Inv(n, Next(n, s, a)) {
      StepKeepsInv(n, s, a);
    }
    AllAlong(Pair(n), s => Inv(n, s), Finished, Start(n), r, k);
    assert Takes(Pair(n), Finished, r, k);
  }

  /** Whose call takes the handshake on, now or once a token has been put back. */
  ghost function Addressee(s: State): Process {
    match s.client
    case CNotify(_) => TheClient
    case CRead(_) =>
      if s.server.SDone? || s.server.SWriteBack? || s.counter == CLIENT_TOKEN then TheClient else TheServer
    case CWriteBack(_, _) => TheServer
    case CDone => TheServer
  }

  /** A call of the addressee achieves something. Any other achieves something, or leaves the
      addressee the same; and if that could not call before, it can after. */
  lemma WhatACallAchieves(n: nat, s: State, a: Process)
    requires Inv(n, s) && Enabled(s, a)
    ensures Needed(n, s) <= Needed(n, Do(n, s, a)) <= 4 * n
    ensures a == Addressee(s) ==> Needed(n, s) < Needed(n, Do(n, s, a))
    ensures Needed(n, s) == Needed(n, Do(n, s, a)) ==> Addressee(Do(n, s, a)) == Addressee(s)
    ensures !Enabled(s, Addressee(s)) ==> Enabled(Do(n, s, a), Addressee(s))
  {
  }

  ghost predicate NothingAchieved(n: nat, r: Schedule, k: nat) {
    forall i: nat | k <= i :: Needed(n, r.state(i)) <= Needed(n, r.state(k))
  }

  lemma {:induction false} AddresseeStays(n: nat, r: Schedule, k: nat, j: nat)
    requires Running(n, r) && NeverEnds(r) && k <= j && NothingAchieved(n, r, k)
    ensures Needed(n, r.state(j)) == Needed(n, r.state(k)) && Addressee(r.state(j)) == Addressee(r.state(k))
    decreases j
  {
    if j == k {
    } else {
      AddresseeStays(n, r, k, j - 1);
      Call(n, r, j - 1);
      WhatACallAchieves(n, r.state(j - 1), r.step(j - 1));
    }
  }

  /** A strongly fair scheduler lets something be achieved after every moment. */
  lemma SomethingIsAchieved(n: nat, r: Schedule, k: nat)
    requires Running(n, r) && NeverEnds(r) && StronglyFair(r)
    ensures !NothingAchieved(n, r, k)
  {
    if NothingAchieved(n, r, k) {
      var a := Addressee(r.state(k));
      forall j: nat | k <= j ensures CanCallSince(r, a, j) {
        AddresseeStays(n, r, k, j);
        Call(n, r, j);
        WhatACallAchieves(n, r.state(j), r.step(j));
        assert Enabled(r.state(j), a) || Enabled(r.state(j + 1), a);
      }
      assert CallsSince(r, a, k);
      var i: nat :| k <= i && r.step(i) == a;
      AddresseeStays(n, r, k, i);
      AddresseeStays(n, r, k, i + 1);
      Call(n, r, i);
      WhatACallAchieves(n, r.state(i), a);
      assert false;
    }
  }

  lemma {:induction false} AnythingIsAchieved(n: nat, r: Schedule, goal: nat) returns (m: nat)
    requires Running(n, r) && NeverEnds(r) && StronglyFair(r)
    ensures Needed(n, r.state(m)) >= goal
    decreases goal
  {
    if goal == 0 {
      m := 0;
    } else {
      var before := AnythingIsAchieved(n, r, goal - 1);
      SomethingIsAchieved(n, r, before);
      m :| before <= m && Needed(n, r.state(m)) > Needed(n, r.state(before));
    }
  }

  /** Under every strongly fair scheduler the handshake comes to an end ... */
  lemma StrongFairnessSuffices(n: nat, r: Schedule)
    requires Running(n, r) && StronglyFair(r)
    ensures exists k: nat :: Finished(r.state(k))
  {
    if NeverEnds(r) {
      var m := AnythingIsAchieved(n, r, 4 * n + 1);
      Call(n, r, m);
      WhatACallAchieves(n, r.state(m), r.step(m));
      assert false;
    }
  }

  ghost function ClientAlone(k: nat): State {
    if k == 0 then State(0, SRead(0), CNotify(0))
    else if k % 2 == 1 then State(SERVER_TOKEN, SRead(0), CRead(0))
    else State(0, SRead(0), CWriteBack(0, SERVER_TOKEN))
  }

  /** ... but not under every weakly fair one: the client can take its token back again and
      again, and the server, which cannot read while the client has it, is never able to for
      good. */
  lemma WeakFairnessDoesNot(n: nat) returns (r: Schedule)
    requires n >= 1
    ensures Running(n, r) && WeaklyFair(r) && NeverEnds(r)
  {
    r := Endless(ClientAlone, _ => TheClient);
    forall k: nat ensures Takes(Pair(n), Finished, r, k) {
      assert Enabled(ClientAlone(k), TheClient) && ClientAlone(k + 1) == Do(n, ClientAlone(k), TheClient);
    }
    forall a: Process, k: nat | forall j: nat | k <= j :: Enabled(r.state(j), a) ensures CallsSince(r, a, k) {
      var j := 2 * k + 2;
      assert Enabled(r.state(j), a) && j % 2 == 0;
      assert r.step(k) == a;
    }
  }

  // ---------------------------------------------------------------- the program

  /** What a process is about to do. */
  datatype Line = Read | PutBack | Write | Exit

  /** run_server and run_client on one shared counter, each with its own loop index and
      `event_val`. */
  class TokenPair {
    const count: nat
    var counter: nat
    var sLine: Line
    var sRound: nat
    var sVal: nat
    var cLine: Line
    var cRound: nat
    var cVal: nat

    ghost function View(): State
      reads this
    {
      State(counter,
            match sLine
            case Read => SRead(sRound)
            case PutBack => SWriteBack(sRound, sVal)
            case Write => SNotify(sRound)
            case Exit => SDone,
            match cLine
            case Read => CRead(cRound)
            case PutBack => CWriteBack(cRound, cVal)
            case Write => CNotify(cRound)
            case Exit => CDone)
    }

    constructor (count: nat)
      ensures this.count == count && View() == Start(count)
    {
      this.count := count;
      counter := 0;
      sLine, sRound, sVal := if 0 < count then Read else Exit, 0, 0;
      cLine, cRound, cVal := if 0 < count then Write else Exit, 0, 0;
    }

    /** The server's next call. */
    method ServerStep()
      requires Enabled(View(), TheServer)
      modifies this`counter, this`sLine, this`sRound, this`sVal
      ensures View() == Do(count, old(View()), TheServer)
    {
      match sLine {
        case Read =>
          sVal, counter := counter, 0;
          sLine := if sVal == SERVER_TOKEN then Write else PutBack;
        case PutBack =>
          counter := counter + sVal;
          sLine := Read;
        case Write =>
          counter := counter + CLIENT_TOKEN;
          sRound := sRound + 1;
          sLine := if sRound < count then Read else Exit;
      }
    }

    /** The client's next call. */
    method ClientStep()
      requires Enabled(View(), TheClient)
      modifies this`counter, this`cLine, this`cRound, this`cVal
      ensures View() == Do(count, old(View()), TheClient)
    {
      match cLine {
        case Write =>
          counter := counter + SERVER_TOKEN;
          cLine := Read;
        case Read =>
          cVal, counter := counter, 0;
          if cVal == CLIENT_TOKEN {
            cRound := cRound + 1;
            cLine := if cRound < count then Write else Exit;
          } else {
            cLine := PutBack;
          }
        case PutBack =>
          counter := counter + cVal;
          cLine := Read;
      }
    }

    /** Runs the pair to the end in the order in which the calls can be granted. */
    method RunToEnd() returns (ghost run: seq<Process>)
      requires Inv(count, View())
      modifies this
      ensures Legal(Pair(count), old(View()), run) && View() == After(Pair(count), old(View()), run)
      ensures Finished(View()) && counter == 0
    {
      ghost var start := View();
      run := [];
      while sLine != Exit || cLine != Exit
        invariant Inv(count, View())
        invariant Legal(Pair(count), start, run) && View() == After(Pair(count), start, run)
        decreases ToGo(count, View())
      {
        ghost var before := View();
        ghost var a := Useful(before);
        UsefulStep(count, before);
        OneStepMore(Pair(count), start, run, a);
        run := run + [a];
        if cLine == Write || cLine == PutBack || counter == CLIENT_TOKEN {
          assert a == TheClient;
          ClientStep();
        } else {
          assert a == TheServer;
          ServerStep();
        }
      }
    }
  }
}
