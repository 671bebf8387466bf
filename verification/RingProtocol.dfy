/** One producer and one consumer working on the same ring without a lock.

    A call is broken into the steps another process can observe: the position test, the copy
    of each piece of the message, the position store. memcpy promises no order, so the pieces
    are copied in any order. Memory is sequentially consistent.

    The steps are shown to refine an object whose send and receive each take effect in one
    indivisible step between their call and their return. */
module RingProtocol {
  import opened Indexing
  import opened Rings
  import opened Runs
  import opened Options

  // ---------------------------------------------------------------- the atomic queue

  datatype Sending<+M> = NotSending | SendPending(msg: M) | SendDone(ok: bool)
  datatype Receiving<+M> = NotReceiving | RecvPending | RecvDone(got: Option<M>)
  datatype Fifo<+M> = Fifo(capacity: nat, queue: seq<M>, snd: Sending<M>, rcv: Receiving<M>)

  datatype FifoAction<+M> =
    | CallSend(msg: M) | SendEffect | ReturnSend(ok: bool)
    | CallRecv | RecvEffect | ReturnRecv(got: Option<M>)
    | Stutter

  ghost predicate FifoEnabled<M>(f: Fifo<M>, a: FifoAction<M>) {
    match a
    case CallSend(_) => f.snd.NotSending?
    case SendEffect => f.snd.SendPending?
    case ReturnSend(ok) => f.snd == SendDone(ok)
    case CallRecv => f.rcv.NotReceiving?
    case RecvEffect => f.rcv.RecvPending?
    case ReturnRecv(got) => f.rcv == RecvDone(got)
    case Stutter => true
  }

  ghost function FifoDo<M>(f: Fifo<M>, a: FifoAction<M>): Fifo<M>
    requires FifoEnabled(f, a)
  {
    match a
    case CallSend(m) => f.(snd := SendPending(m))
    case SendEffect =>
      if |f.queue| >= f.capacity then f.(snd := SendDone(false))
      else f.(queue := f.queue + [f.snd.msg], snd := SendDone(true))
    case ReturnSend(_) => f.(snd := NotSending)
    case CallRecv => f.(rcv := RecvPending)
    case RecvEffect =>
      if f.queue == [] then f.(rcv := RecvDone(None))
      else f.(queue := f.queue[1..], rcv := RecvDone(Some(f.queue[0])))
    case ReturnRecv(_) => f.(rcv := NotReceiving)
    case Stutter => f
  }

  ghost function FifoNext<M>(f: Fifo<M>, a: FifoAction<M>): Fifo<M> {
    if FifoEnabled(f, a) then FifoDo(f, a) else f
  }

  ghost function AtomicQueue<M(!new)>(): System<Fifo<M>, FifoAction<M>> {
    System((f, a) => FifoEnabled(f, a), (f, a) => FifoNext(f, a))
  }

  /** The messages whose send succeeded during the run, in order of taking effect. */
  ghost function Sent<M(!new)>(f: Fifo<M>, run: seq<FifoAction<M>>): seq<M>
    requires Legal(AtomicQueue(), f, run)
    decreases |run|
  {
    if run == [] then []
    else (if run[0].SendEffect? && |f.queue| < f.capacity then [f.snd.msg] else [])
         + Sent(FifoNext(f, run[0]), run[1..])
  }

  /** The messages handed to the receiver during the run, in order of taking effect. */
  ghost function Received<M(!new)>(f: Fifo<M>, run: seq<FifoAction<M>>): seq<M>
    requires Legal(AtomicQueue(), f, run)
    decreases |run|
  {
    if run == [] then []
    else (if run[0].RecvEffect? && f.queue != [] then [f.queue[0]] else [])
         + Received(FifoNext(f, run[0]), run[1..])
  }

  lemma FifoStepConserves<M(!new)>(f: Fifo<M>, a: FifoAction<M>, sent: seq<M>, received: seq<M>)
    requires FifoEnabled(f, a)
    requires sent == if a.SendEffect? && |f.queue| < f.capacity then [f.snd.msg] else []
    requires received == if a.RecvEffect? && f.queue != [] then [f.queue[0]] else []
    ensures f.queue + sent == received + FifoNext(f, a).queue
  {
  }

  lemma Regroup<M>(
      a: seq<M>, sent: seq<M>, laterSent: seq<M>, received: seq<M>, b: seq<M>, laterReceived: seq<M>, c: seq<M>)
    requires a + sent == received + b && b + laterSent == laterReceived + c
    ensures a + (sent + laterSent) == (received + laterReceived) + c
  {
    calc {
      a + (sent + laterSent);
      (a + sent) + laterSent;
      (received + b) + laterSent;
      received + (b + laterSent);
      received + (laterReceived + c);
      (received + laterReceived) + c;
    }
  }

  lemma {:induction false} FifoConserves<M(!new)>(f: Fifo<M>, run: seq<FifoAction<M>>)
    requires Legal(AtomicQueue(), f, run)
    ensures f.queue + Sent(f, run) == Received(f, run) + After(AtomicQueue(), f, run).queue
    decreases |run|
  {
    if run == [] {
    } else {
      var g := FifoNext(f, run[0]);
      FifoConserves(g, run[1..]);
      var sent := if run[0].SendEffect? && |f.queue| < f.capacity then [f.snd.msg] else [];
      var received := if run[0].RecvEffect? && f.queue != [] then [f.queue[0]] else [];
      FifoStepConserves(f, run[0], sent, received);
      Regroup(f.queue, sent, Sent(g, run[1..]), received, g.queue,
              Received(g, run[1..]), After(AtomicQueue(), g, run[1..]).queue);
    }
  }

  // ---------------------------------------------------------------- the box, step by step

  type Pieces<C> = seq<C>

  datatype Producer<C> =
    | PIdle
    | PCalled(msg: Pieces<C>)
    | PCopying(msg: Pieces<C>, todo: set<nat>)
    | PReturning(ok: bool)

  datatype Consumer<C> =
    | CIdle
    | CCalled(into: Pieces<C>)
    | CCopying(into: Pieces<C>, todo: set<nat>)
    | CReturning(ok: bool, into: Pieces<C>)

  datatype State<C> = State(ring: Ring<Pieces<C>>, len: nat, p: Producer<C>, c: Consumer<C>)

  datatype Action<C> =
    | PCall(msg: Pieces<C>) | PTest | PCopy(piece: nat) | PStore | PReturn
    | CCall(into: Pieces<C>) | CTest | CCopy(piece: nat) | CStore | CReturn

  ghost predicate Enabled<C>(s: State<C>, a: Action<C>) {
    match a
    case PCall(m) => s.p.PIdle? && |m| == s.len
    case PTest => s.p.PCalled?
    case PCopy(j) => s.p.PCopying? && j in s.p.todo
    case PStore => s.p.PCopying? && s.p.todo == {}
    case PReturn => s.p.PReturning?
    case CCall(into) => s.c.CIdle? && |into| == s.len
    case CTest => s.c.CCalled?
    case CCopy(j) => s.c.CCopying? && j in s.c.todo
    case CStore => s.c.CCopying? && s.c.todo == {}
    case CReturn => s.c.CReturning?
  }

  /** What holds in every reachable state. A copy under way has got right every piece it has
      done so far, and it runs only on the far side of a passed test. */
  ghost predicate Inv<C>(s: State<C>) {
    && s.ring.Valid()
    && (forall k | 0 <= k < |s.ring.slots| :: |s.ring.slots[k]| == s.len)
    && (s.p.PCalled? ==> |s.p.msg| == s.len)
    && (s.p.PCopying? ==>
          && !s.ring.Full() && |s.p.msg| == s.len && s.p.todo <= Indices(s.len)
          && forall j: nat | j < s.len && j !in s.p.todo :: s.ring.slots[s.ring.inPos][j] == s.p.msg[j])
    && (s.c.CCalled? || s.c.CCopying? ==> |s.c.into| == s.len)
    && (s.c.CCopying? ==>
          && !s.ring.Empty() && s.c.todo <= Indices(s.len)
          && forall j: nat | j < s.len && j !in s.c.todo :: s.c.into[j] == s.ring.slots[s.ring.outPos][j])
  }

  ghost function Do<C>(s: State<C>, a: Action<C>): State<C>
    requires Inv(s) && Enabled(s, a)
  {
    var r := s.ring;
    match a
    case PCall(m) => s.(p := PCalled(m))
    case PTest => s.(p := if r.Full() then PReturning(false) else PCopying(s.p.msg, Indices(s.len)))
    case PCopy(j) =>
      s.(ring := r.(slots := r.slots[r.inPos := r.slots[r.inPos][j := s.p.msg[j]]]),
         p := s.p.(todo := s.p.todo - {j}))
    case PStore => s.(ring := r.Publish(), p := PReturning(true))
    case PReturn => s.(p := PIdle)
    case CCall(into) => s.(c := CCalled(into))
    case CTest =>
      s.(c := if r.Empty() then CReturning(false, s.c.into) else CCopying(s.c.into, Indices(s.len)))
    case CCopy(j) =>
      s.(c := CCopying(s.c.into[j := r.slots[r.outPos][j]], s.c.todo - {j}))
    case CStore => s.(ring := r.Release(), c := CReturning(true, s.c.into))
    case CReturn => s.(c := CIdle)
  }

  ghost predicate Init<C>(s: State<C>) {
    && Inv(s) && s.p.PIdle? && s.c.CIdle? && s.ring.inPos == 0 && s.ring.outPos == 0
  }

  lemma StepKeepsInv<C>(s: State<C>, a: Action<C>)
    requires Inv(s) && Enabled(s, a)
    ensures Inv(Do(s, a))
  {
  }

  ghost predicate Possible<C>(s: State<C>, a: Action<C>) {
    Inv(s) && Enabled(s, a)
  }

  ghost function Next<C>(s: State<C>, a: Action<C>): State<C> {
    if Possible(s, a) then Do(s, a) else s
  }

  ghost function Box<C(!new)>(): System<State<C>, Action<C>> {
    System((s, a) => Possible(s, a), (s, a) => Next(s, a))
  }

  lemma RunKeepsInv<C(!new)>(s: State<C>, run: seq<Action<C>>)
    requires Inv(s) && Legal(Box(), s, run)
    ensures Inv(After(Box(), s, run))
  {
    forall s: State<C>, a | Inv(s) && Possible(s, a) ensures Inv(Next(s, a)) {
      StepKeepsInv(s, a);
    }
    RunKeeps(Box(), s => Inv(s), s, run);
  }

  /** At no time do the two sides copy the same slot, so no message is ever torn. */
  lemma SlotsInUseDiffer<C(!new)>(s: State<C>, run: seq<Action<C>>)
    requires Inv(s) && Legal(Box(), s, run)
    ensures var t := After(Box(), s, run);
            t.p.PCopying? && t.c.CCopying? ==> t.ring.inPos != t.ring.outPos
  {
    RunKeepsInv(s, run);
  }

  // ---------------------------------------------------------------- refinement

  /** The atomic queue a state stands for. A copy in progress has not taken effect yet. */
  ghost function Abs<C>(s: State<C>): Fifo<Pieces<C>>
    requires Inv(s)
  {
    Fifo(|s.ring.slots| - 1, s.ring.Contents(),
         match s.p
         case PIdle => NotSending
         case PCalled(m) => SendPending(m)
         case PCopying(m, _) => SendPending(m)
         case PReturning(ok) => SendDone(ok),
         match s.c
         case CIdle => NotReceiving
         case CCalled(_) => RecvPending
         case CCopying(_, _) => RecvPending
         case CReturning(ok, into) => RecvDone(if ok then Some(into) else None))
  }

  /** A send takes effect at its store or at its failed test, a receive likewise; calls and
      returns are themselves, with the values the program passes and gets back. */
  ghost function AbsAction<C>(s: State<C>, a: Action<C>): FifoAction<Pieces<C>>
    requires Inv(s) && Enabled(s, a)
  {
    match a
    case PCall(m) => CallSend(m)
    case PTest => if s.ring.Full() then SendEffect else Stutter
    case PCopy(_) => Stutter
    case PStore => SendEffect
    case PReturn => ReturnSend(s.p.ok)
    case CCall(_) => CallRecv
    case CTest => if s.ring.Empty() then RecvEffect else Stutter
    case CCopy(_) => Stutter
    case CStore => RecvEffect
    case CReturn => ReturnRecv(if s.c.ok then Some(s.c.into) else None)
  }

  lemma StepRefines<C(!new)>(s: State<C>, a: Action<C>)
    requires Inv(s) && Enabled(s, a)
    ensures Inv(Do(s, a))
    ensures FifoEnabled(Abs(s), AbsAction(s, a))
    ensures Abs(Do(s, a)) == FifoDo(Abs(s), AbsAction(s, a))
  {
    StepKeepsInv(s, a);
    TestsMeanCapacity(s.ring);
    match a {
      case PCopy(j) =>
        WriteSlotIsHidden(s.ring, s.ring.slots[s.ring.inPos][j := s.p.msg[j]]);
      case PStore =>
        assert s.ring.slots[s.ring.inPos] == s.p.msg;
        PublishAppends(s.ring);
      case CStore =>
        assert s.ring.slots[s.ring.outPos] == s.c.into;
        ReleaseDropsOldest(s.ring);
        assert s.ring.Contents()[1..] == s.ring.Release().Contents();
      case _ =>
    }
  }

  ghost function AbsRun<C(!new)>(s: State<C>, run: seq<Action<C>>): seq<FifoAction<Pieces<C>>>
    requires Inv(s) && Legal(Box(), s, run)
    decreases |run|
  {
    if run == [] then []
    else [AbsAction(s, run[0])] + AbsRun(Next(s, run[0]), run[1..])
  }

  /** Linearizability: every interleaving is a run of the atomic queue with the same calls and
      the same returned values, whatever the number of slots. */
  lemma {:induction false} EveryRunIsAtomic<C(!new)>(s: State<C>, run: seq<Action<C>>)
    requires Inv(s) && Legal(Box(), s, run)
    ensures Legal(AtomicQueue(), Abs(s), AbsRun(s, run))
    ensures Inv(After(Box(), s, run))
    ensures After(AtomicQueue(), Abs(s), AbsRun(s, run)) == Abs(After(Box(), s, run))
    decreases |run|
  {
    if run == [] {
    } else {
      StepRefines(s, run[0]);
      EveryRunIsAtomic(Next(s, run[0]), run[1..]);
      assert AbsRun(s, run)[1..] == AbsRun(Next(s, run[0]), run[1..]);
    }
  }

  // ---------------------------------------------------------------- calls with nobody else at work

  /** The ring and the answer a send under way is heading for if only the producer takes steps. */
  ghost function HeadingFor<C>(s: State<C>): (Ring<Pieces<C>>, Option<bool>)
    requires Inv(s)
  {
    match s.p
    case PIdle => (s.ring, None)
    case PCalled(m) => (s.ring.AfterSend(m), Some(|s.ring.Contents()| < |s.ring.slots| - 1))
    case PCopying(m, _) => (s.ring.(slots := s.ring.slots[s.ring.inPos := m]).Publish(), Some(true))
    case PReturning(ok) => (s.ring, Some(ok))
  }

  /** In whatever order its pieces are copied, a send that runs alone does what
      `MessageBox.Send` does, and answers whether there was room. */
  lemma {:induction false} SendAlone<C(!new)>(s: State<C>, run: seq<Action<C>>)
    requires Inv(s) && Legal(Box(), s, run)
    requires forall a | a in run :: a.PTest? || a.PCopy? || a.PStore?
    ensures Inv(After(Box(), s, run))
    ensures HeadingFor(After(Box(), s, run)) == HeadingFor(s)
    decreases |run|
  {
    if run == [] {
    } else {
      StepKeepsInv(s, run[0]);
      SendAlone(Next(s, run[0]), run[1..]);
      TestsMeanCapacity(s.ring);
      if run[0].PStore? {
        assert s.ring.slots[s.ring.inPos] == s.p.msg;
        assert s.ring.slots[s.ring.inPos := s.p.msg] == s.ring.slots;
      } else if run[0].PCopy? {
        var i, t := s.ring.inPos, Next(s, run[0]);
        assert t.ring.slots[i := s.p.msg] == s.ring.slots[i := s.p.msg];
      }
    }
  }

  /** So an undisturbed send returns OK exactly if the queue has grown by its message, and fails
      exactly if all slots but one were in use, and the queue is what it was. */
  lemma UndisturbedSendAnswers<C(!new)>(s: State<C>, m: Pieces<C>, run: seq<Action<C>>)
    requires Inv(s) && s.p == PCalled(m) && Legal(Box(), s, run)
    requires forall a | a in run :: a.PTest? || a.PCopy? || a.PStore?
    requires After(Box(), s, run).p.PReturning?
    ensures Inv(After(Box(), s, run))
    ensures var t := After(Box(), s, run); var before, after := s.ring.Contents(), t.ring.Contents();
            && (t.p.ok <==> after == before + [m])
            && (!t.p.ok <==> |before| == |s.ring.slots| - 1)
            && (!t.p.ok ==> after == before)
  {
    SendAlone(s, run);
    TestsMeanCapacity(s.ring);
    var w := s.ring.(slots := s.ring.slots[s.ring.inPos := m]);
    if !s.ring.Full() {
      WriteSlotIsHidden(s.ring, m);
      PublishAppends(w);
    }
  }

  /** The ring and the message a receive under way is heading for if only the consumer takes
      steps. */
  ghost function Awaiting<C>(s: State<C>): (Ring<Pieces<C>>, Option<Pieces<C>>)
    requires Inv(s)
  {
    var head := if s.ring.Empty() then None else Some(s.ring.Contents()[0]);
    match s.c
    case CIdle => (s.ring, None)
    case CCalled(_) => (s.ring.AfterRecv(), head)
    case CCopying(_, _) => (s.ring.Release(), head)
    case CReturning(ok, into) => (s.ring, if ok then Some(into) else None)
  }

  /** Dually, a receive that runs alone does what `MessageBox.Recv` does, and returns the oldest
      message, or fails on an empty box. */
  lemma {:induction false} RecvAlone<C(!new)>(s: State<C>, run: seq<Action<C>>)
    requires Inv(s) && Legal(Box(), s, run)
    requires forall a | a in run :: a.CTest? || a.CCopy? || a.CStore?
    ensures Inv(After(Box(), s, run))
    ensures Awaiting(After(Box(), s, run)) == Awaiting(s)
    decreases |run|
  {
    if run == [] {
    } else {
      StepKeepsInv(s, run[0]);
      RecvAlone(Next(s, run[0]), run[1..]);
      TestsMeanCapacity(s.ring);
      if run[0].CStore? {
        assert s.ring.slots[s.ring.outPos] == s.c.into;
        ReleaseDropsOldest(s.ring);
      }
    }
  }

  // ---------------------------------------------------------------- whole runs from an empty box

  lemma PositionsStep<C(!new)>(s: State<C>, a: Action<C>, sent: nat, received: nat)
    requires Inv(s) && Enabled(s, a)
    requires s.ring.inPos == sent % |s.ring.slots| && s.ring.outPos == received % |s.ring.slots|
    ensures var t := Do(s, a);
            && |t.ring.slots| == |s.ring.slots|
            && t.ring.inPos == (if a.PStore? then sent + 1 else sent) % |s.ring.slots|
            && t.ring.outPos == (if a.CStore? then received + 1 else received) % |s.ring.slots|
  {
    RemainderSteps(sent, |s.ring.slots|);
    RemainderSteps(received, |s.ring.slots|);
  }

  lemma EffectsOfStep<C(!new)>(s: State<C>, a: Action<C>)
    requires Inv(s) && Enabled(s, a)
    ensures AbsAction(s, a).SendEffect? && |Abs(s).queue| < Abs(s).capacity <==> a.PStore?
    ensures AbsAction(s, a).RecvEffect? && Abs(s).queue != [] <==> a.CStore?
  {
    TestsMeanCapacity(s.ring);
  }

  /** The positions count successes: they move with nothing else. */
  lemma {:induction false} PositionsCount<C(!new)>(s: State<C>, run: seq<Action<C>>, sent: nat, received: nat)
    requires Inv(s) && Legal(Box(), s, run)
    requires Legal(AtomicQueue(), Abs(s), AbsRun(s, run))
    requires s.ring.inPos == sent % |s.ring.slots| && s.ring.outPos == received % |s.ring.slots|
    ensures |After(Box(), s, run).ring.slots| == |s.ring.slots|
    ensures After(Box(), s, run).ring.inPos == (sent + |Sent(Abs(s), AbsRun(s, run))|) % |s.ring.slots|
    ensures After(Box(), s, run).ring.outPos == (received + |Received(Abs(s), AbsRun(s, run))|) % |s.ring.slots|
    decreases |run|
  {
    if run == [] {
    } else {
      var a := run[0];
      StepRefines(s, a);
      EffectsOfStep(s, a);
      PositionsStep(s, a, sent, received);
      assert AbsRun(s, run)[1..] == AbsRun(Do(s, a), run[1..]);
      PositionsCount(Do(s, a), run[1..],
                     if a.PStore? then sent + 1 else sent,
                     if a.CStore? then received + 1 else received);
    }
  }

  /** Nothing is lost, repeated or reordered by the ring across any number of wrap-arounds:
      the sends that succeeded are the receives that succeeded followed by what is queued,
      at most one message less than there are slots is queued, and the two positions are the
      two totals modulo the number of slots. */
  lemma RingIsAQueue<C(!new)>(s: State<C>, run: seq<Action<C>>)
    requires Init(s) && Legal(Box(), s, run)
    ensures Legal(AtomicQueue(), Abs(s), AbsRun(s, run))
    ensures Inv(After(Box(), s, run))
    ensures var t, n := After(Box(), s, run), |s.ring.slots|;
            var sent, received := Sent(Abs(s), AbsRun(s, run)), Received(Abs(s), AbsRun(s, run));
            && sent == received + t.ring.Contents()
            && 0 <= |sent| - |received| <= n - 1
            && t.ring.inPos == |sent| % n && t.ring.outPos == |received| % n
  {
    EveryRunIsAtomic(s, run);
    FifoConserves(Abs(s), AbsRun(s, run));
    PositionsCount(s, run, 0, 0);
    TestsMeanCapacity(After(Box(), s, run).ring);
    assert s.ring.Contents() == [];
  }

  // ---------------------------------------------------------------- what the callers see

  /** What the two callers have seen: the message of the last send, the messages of the sends
      that have returned OK and how many have failed, the messages that receives have returned
      and how many have failed; and how often a call has found the box full, or empty. */
  datatype Seen<C> = Seen(
    call: Pieces<C>, sent: seq<Pieces<C>>, refused: nat, got: seq<Pieces<C>>, missed: nat,
    foundFull: nat, foundEmpty: nat)

  ghost function Observe<C>(s: State<C>, a: Action<C>, seen: Seen<C>): Seen<C>
    requires Inv(s) && Enabled(s, a)
  {
    match a
    case PCall(m) => seen.(call := m)
    case PTest => if |s.ring.Contents()| == |s.ring.slots| - 1 then seen.(foundFull := seen.foundFull + 1) else seen
    case PReturn => if s.p.ok then seen.(sent := seen.sent + [seen.call]) else seen.(refused := seen.refused + 1)
    case CTest => if s.ring.Contents() == [] then seen.(foundEmpty := seen.foundEmpty + 1) else seen
    case CReturn => if s.c.ok then seen.(got := seen.got + [s.c.into]) else seen.(missed := seen.missed + 1)
    case _ => seen
  }

  ghost function Observed<C(!new)>(s: State<C>, run: seq<Action<C>>, seen: Seen<C>): Seen<C>
    requires Inv(s) && Legal(Box(), s, run)
    decreases |run|
  {
    if run == [] then seen else Observed(Next(s, run[0]), run[1..], Observe(s, run[0], seen))
  }

  /** An answer that is about to be returned counts as returned. */
  ghost predicate Told<C>(s: State<C>, seen: Seen<C>)
    requires Inv(s)
  {
    && (s.p.PCalled? || s.p.PCopying? ==> s.p.msg == seen.call)
    && seen.sent + (if s.p == PReturning(true) then [seen.call] else [])
       == seen.got + (if s.c.CReturning? && s.c.ok then [s.c.into] else []) + s.ring.Contents()
    && seen.refused + (if s.p == PReturning(false) then 1 else 0) == seen.foundFull
    && seen.missed + (if s.c.CReturning? && !s.c.ok then 1 else 0) == seen.foundEmpty
  }

  lemma OneMoreOnBothSides<M>(sent: seq<M>, got: seq<M>, queue: seq<M>, m: M, longer: seq<M>)
    requires sent == got + queue && longer == queue + [m]
    ensures sent + [m] == got + longer
  {
  }

  lemma FromQueueToReceiver<M>(got: seq<M>, queue: seq<M>, m: M, rest: seq<M>)
    requires queue == [m] + rest
    ensures got + [] + queue == got + [m] + rest
  {
  }

  lemma StoreTold<C(!new)>(s: State<C>, seen: Seen<C>)
    requires Inv(s) && Enabled(s, PStore) && Told(s, seen)
    ensures Inv(Do(s, PStore)) && Told(Do(s, PStore), seen)
  {
    StepKeepsInv(s, PStore);
    assert s.ring.slots[s.ring.inPos] == s.p.msg;
    PublishAppends(s.ring);
    var got := seen.got + (if s.c.CReturning? && s.c.ok then [s.c.into] else []);
    assert seen.sent == got + s.ring.Contents();
    OneMoreOnBothSides(seen.sent, got, s.ring.Contents(), seen.call, s.ring.Publish().Contents());
  }

  lemma TakeTold<C(!new)>(s: State<C>, seen: Seen<C>)
    requires Inv(s) && Enabled(s, CStore) && Told(s, seen)
    ensures Inv(Do(s, CStore)) && Told(Do(s, CStore), seen)
  {
    StepKeepsInv(s, CStore);
    assert s.ring.slots[s.ring.outPos] == s.c.into;
    ReleaseDropsOldest(s.ring);
    FromQueueToReceiver(seen.got, s.ring.Contents(), s.c.into, s.ring.Release().Contents());
  }

  lemma StepTold<C(!new)>(s: State<C>, a: Action<C>, seen: Seen<C>)
    requires Inv(s) && Enabled(s, a) && Told(s, seen)
    ensures Inv(Do(s, a)) && Told(Do(s, a), Observe(s, a, seen))
  {
    StepKeepsInv(s, a);
    match a {
      case PStore => StoreTold(s, seen);
      case CStore => TakeTold(s, seen);
      case PCopy(j) => WriteSlotIsHidden(s.ring, s.ring.slots[s.ring.inPos][j := s.p.msg[j]]);
      case _ => TestsMeanCapacity(s.ring);
    }
  }

  /** What the callers are told is true in every run: the messages whose sends have returned OK
      are those that receives have returned, followed by those in the box; as many sends have
      failed as have found the box full, and as many receives as have found it empty. */
  lemma {:induction false} CallersSeeAQueue<C(!new)>(s: State<C>, run: seq<Action<C>>, seen: Seen<C>)
    requires Inv(s) && Told(s, seen) && Legal(Box(), s, run)
    ensures Inv(After(Box(), s, run)) && Told(After(Box(), s, run), Observed(s, run, seen))
    decreases |run|
  {
    if run == [] {
    } else {
      StepTold(s, run[0], seen);
      CallersSeeAQueue(Next(s, run[0]), run[1..], Observe(s, run[0], seen));
    }
  }

  /** The same from an empty box on, and with it the number of sends that have returned OK. */
  lemma AnswersAreTrue<C(!new)>(s: State<C>, run: seq<Action<C>>, nothing: Pieces<C>)
    requires Init(s) && Legal(Box(), s, run)
    ensures Inv(After(Box(), s, run)) && Legal(AtomicQueue(), Abs(s), AbsRun(s, run))
    ensures var t, seen := After(Box(), s, run), Observed(s, run, Seen(nothing, [], 0, [], 0, 0, 0));
            && Told(t, seen)
            && |seen.sent| + (if t.p == PReturning(true) then 1 else 0) == |Sent(Abs(s), AbsRun(s, run))|
            && |seen.got| + (if t.c.CReturning? && t.c.ok then 1 else 0) == |Received(Abs(s), AbsRun(s, run))|
  {
    var seen := Seen(nothing, [], 0, [], 0, 0, 0);
    assert s.ring.Contents() == [];
    CallersSeeAQueue(s, run, seen);
    RingIsAQueue(s, run);
    SuccessesAreStores(s, run, seen);
  }

  lemma {:induction false} SuccessesAreStores<C(!new)>(s: State<C>, run: seq<Action<C>>, seen: Seen<C>)
    requires Inv(s) && Legal(Box(), s, run)
    ensures Inv(After(Box(), s, run)) && Legal(AtomicQueue(), Abs(s), AbsRun(s, run))
    ensures var t, now := After(Box(), s, run), Observed(s, run, seen);
            && |now.got| + (if t.c.CReturning? && t.c.ok then 1 else 0)
               == |seen.got| + (if s.c.CReturning? && s.c.ok then 1 else 0) + |Received(Abs(s), AbsRun(s, run))|
    decreases |run|
  {
    EveryRunIsAtomic(s, run);
    if run == [] {
    } else {
      StepRefines(s, run[0]);
      EffectsOfStep(s, run[0]);
      assert AbsRun(s, run)[1..] == AbsRun(Do(s, run[0]), run[1..]);
      SuccessesAreStores(Next(s, run[0]), run[1..], Observe(s, run[0], seen));
    }
  }

  // ---------------------------------------------------------------- tests that stay true

  /** Once its only producer has seen room in the box, the box keeps room until that
      producer's next send has succeeded, however the consumer interleaves: a send that
      follows a passed full test cannot fail. */
  lemma {:induction false} SendAfterTestSucceeds<C(!new)>(s: State<C>, run: seq<Action<C>>)
    requires Inv(s) && Legal(Box(), s, run)
    requires !s.p.PReturning? && !s.ring.Full()
    requires forall a | a in run :: !a.PReturn?
    ensures Inv(After(Box(), s, run))
    ensures var t := After(Box(), s, run);
            if t.p.PReturning? then t.p.ok else !t.ring.Full()
    decreases |run|
  {
    if run == [] {
    } else {
      StepKeepsInv(s, run[0]);
      var t := Next(s, run[0]);
      if t.p.PReturning? {
        ReturnWaits(t, run[1..]);
      } else {
        SendAfterTestSucceeds(t, run[1..]);
      }
    }
  }

  lemma {:induction false} ReturnWaits<C(!new)>(s: State<C>, run: seq<Action<C>>)
    requires Inv(s) && Legal(Box(), s, run)
    requires s.p.PReturning?
    requires forall a | a in run :: !a.PReturn?
    ensures Inv(After(Box(), s, run)) && After(Box(), s, run).p == s.p
    decreases |run|
  {
    if run == [] {
    } else {
      StepKeepsInv(s, run[0]);
      ReturnWaits(Next(s, run[0]), run[1..]);
    }
  }

  /** Dually, once the only consumer has seen a message, its next receive gets one. */
  lemma {:induction false} RecvAfterTestSucceeds<C(!new)>(s: State<C>, run: seq<Action<C>>)
    requires Inv(s) && Legal(Box(), s, run)
    requires !s.c.CReturning? && !s.ring.Empty()
    requires forall a | a in run :: !a.CReturn?
    ensures var t := After(Box(), s, run);
            if t.c.CReturning? then t.c.ok else !t.ring.Empty()
    decreases |run|
  {
    if run == [] {
    } else {
      StepKeepsInv(s, run[0]);
      var t := Next(s, run[0]);
      if t.c.CReturning? {
        ResultWaits(t, run[1..]);
      } else {
        RecvAfterTestSucceeds(t, run[1..]);
      }
    }
  }

  lemma {:induction false} ResultWaits<C(!new)>(s: State<C>, run: seq<Action<C>>)
    requires Inv(s) && Legal(Box(), s, run)
    requires s.c.CReturning?
    requires forall a | a in run :: !a.CReturn?
    ensures Inv(After(Box(), s, run)) && After(Box(), s, run).c == s.c
    decreases |run|
  {
    if run == [] {
    } else {
      StepKeepsInv(s, run[0]);
      ResultWaits(Next(s, run[0]), run[1..]);
    }
  }
}
