/** The ring buffer of a message box: its positions, its contents as a queue, and the
    box operations that update it in place. */
module Rings {

  const OK := 0
  const FAILED := -1

  /** The position after `i` in a ring of `n` slots. */
  function Next(i: nat, n: nat): (r: nat)
    requires i < n
    ensures r == if i + 1 == n then 0 else i + 1
  {
    (i + 1) % n
  }

  /** The shared part of a message box, as a value. */
  datatype Ring<T> = Ring(slots: seq<T>, inPos: nat, outPos: nat) {

    ghost predicate Valid() {
      |slots| >= 2 && inPos < |slots| && outPos < |slots|
    }

    ghost predicate Full()
      requires Valid()
    {
      Next(inPos, |slots|) == outPos
    }

    ghost predicate Empty() {
      inPos == outPos
    }

    /** The queued messages, oldest first. */
    ghost function Contents(): seq<T>
      requires Valid()
    {
      if outPos <= inPos then slots[outPos..inPos] else slots[outPos..] + slots[..inPos]
    }

    /** The ring once the slot at the write position counts as queued. */
    ghost function Publish(): Ring<T>
      requires Valid()
    {
      this.(inPos := Next(inPos, |slots|))
    }

    /** The ring once the slot at the read position is given back. */
    ghost function Release(): Ring<T>
      requires Valid()
    {
      this.(outPos := Next(outPos, |slots|))
    }

    /** The ring after one whole send with nobody else at work. */
    ghost function AfterSend(msg: T): Ring<T>
      requires Valid()
    {
      if Full() then this else this.(slots := slots[inPos := msg]).Publish()
    }

    /** The ring after one whole receive with nobody else at work. */
    ghost function AfterRecv(): Ring<T>
      requires Valid()
    {
      if Empty() then this else Release()
    }
  }

  /** The two position tests decide exactly the two extremes of a queue that holds at most
      one message less than there are slots. */
  lemma TestsMeanCapacity<T>(r: Ring<T>)
    requires r.Valid()
    ensures |r.Contents()| <= |r.slots| - 1
    ensures r.Full() <==> |r.Contents()| == |r.slots| - 1
    ensures r.Empty() <==> r.Contents() == []
  {
    assert r.Contents() == [] <==> |r.Contents()| == 0;
  }

  /** The slot at the write position is not part of the queue, whatever is written to it. */
  lemma WriteSlotIsHidden<T>(r: Ring<T>, x: T)
    requires r.Valid()
    ensures r.(slots := r.slots[r.inPos := x]).Contents() == r.Contents()
  {
    var w := r.(slots := r.slots[r.inPos := x]);
    assert |w.Contents()| == |r.Contents()|;
  }

  lemma PublishAppends<T>(r: Ring<T>)
    requires r.Valid() && !r.Full()
    ensures r.Publish().Valid()
    ensures r.Publish().Contents() == r.Contents() + [r.slots[r.inPos]]
  {
    var p := r.Publish();
    assert |p.Contents()| == |r.Contents()| + 1;
  }

  lemma ReleaseDropsOldest<T>(r: Ring<T>)
    requires r.Valid() && !r.Empty()
    ensures r.Release().Valid()
    ensures r.Contents() == [r.slots[r.outPos]] + r.Release().Contents()
  {
    var p := r.Release();
    assert |r.Contents()| == |p.Contents()| + 1;
  }

  /** A message box over `messages.Length` slots; the program uses MESSAGE_BUF_SIZE = 128. */
  class MessageBox<T(0)> {
    var messages: array<T>
    var msgInPos: nat
    var msgOutPos: nat

    ghost predicate Valid()
      reads this
    {
      messages.Length >= 2 && msgInPos < messages.Length && msgOutPos < messages.Length
    }

    ghost function View(): Ring<T>
      reads this, messages
      requires Valid()
      ensures View().Valid()
    {
      Ring(messages[..], msgInPos, msgOutPos)
    }

    ghost function Contents(): seq<T>
      reads this, messages
      requires Valid()
    {
      View().Contents()
    }

    ghost function Capacity(): int
      reads this
    {
      messages.Length - 1
    }

    constructor (n: nat)
      requires n >= 2
      ensures Valid() && fresh(messages) && messages.Length == n && Contents() == []
    {
      messages := new T[n];
      msgInPos, msgOutPos := 0, 0;
    }

    /** What the owner of a box does to it before use. */
    method ResetPositions()
      requires messages.Length >= 2
      modifies this`msgInPos, this`msgOutPos
      ensures Valid() && Contents() == []
    {
      msgInPos := 0;
      msgOutPos := 0;
    }

    method Send(msg: T) returns (code: int)
      requires Valid()
      modifies this`msgInPos, messages
      ensures Valid() && messages == old(messages)
      ensures View() == old(View()).AfterSend(msg)
      ensures old(|Contents()|) < Capacity() ==> code == 0 && Contents() == old(Contents()) + [msg]
      ensures old(|Contents()|) >= Capacity() ==> code == -1 && View() == old(View())
    {
      TestsMeanCapacity(View());
      if (msgInPos + 1) % messages.Length == msgOutPos {
        return FAILED;
      }
      ghost var before := View();
      messages[msgInPos] := msg;
      assert View() == before.(slots := before.slots[msgInPos := msg]);
      WriteSlotIsHidden(before, msg);
      PublishAppends(View());
      msgInPos := (msgInPos + 1) % messages.Length;
      return OK;
    }

    /** `into` is the caller's buffer before the call, `msg` the same buffer after it. */
    method Recv(into: T) returns (code: int, msg: T)
      requires Valid()
      modifies this`msgOutPos
      ensures Valid() && View() == old(View()).AfterRecv()
      ensures old(Contents()) != [] ==> code == 0 && old(Contents()) == [msg] + Contents()
      ensures old(Contents()) == [] ==> code == -1 && msg == into && View() == old(View())
    {
      TestsMeanCapacity(View());
      if msgOutPos == msgInPos {
        return FAILED, into;
      }
      msg := messages[msgOutPos];
      ReleaseDropsOldest(View());
      msgOutPos := (msgOutPos + 1) % messages.Length;
      return OK, msg;
    }

    method CheckEmpty() returns (r: int)
      requires Valid()
      ensures r == if Contents() == [] then 1 else 0
    {
      TestsMeanCapacity(View());
      r := if msgInPos == msgOutPos then 1 else 0;
    }

    method CheckFull() returns (r: int)
      requires Valid()
      ensures r == if |Contents()| == Capacity() then 1 else 0
    {
      TestsMeanCapacity(View());
      r := if (msgInPos + 1) % messages.Length == msgOutPos then 1 else 0;
    }
  }
}
