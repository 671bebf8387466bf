/** What the three ping-pong programs have in common: `count` rounds, in each of which the
    server takes a turn and then the client does. */
module Turns {

  datatype Turn = ServerTurn | ClientTurn

  /** The abstract automaton: its state is the number of turns taken so far. */
  ghost predicate Allowed(count: nat, taken: nat, t: Turn) {
    taken < 2 * count && (t.ServerTurn? <==> taken % 2 == 0)
  }

  ghost predicate Accepts(count: nat, taken: nat, trace: seq<Turn>)
    decreases |trace|
  {
    trace == [] || (Allowed(count, taken, trace[0]) && Accepts(count, taken + 1, trace[1..]))
  }

  lemma {:induction false} AcceptsAppends(count: nat, taken: nat, first: seq<Turn>, second: seq<Turn>)
    requires Accepts(count, taken, first) && Accepts(count, taken + |first|, second)
    ensures Accepts(count, taken, first + second)
    decreases |first|
  {
    if first == [] {
      assert first + second == second;
    } else {
      AcceptsAppends(count, taken + 1, first[1..], second);
      assert (first + second)[1..] == first[1..] + second;
    }
  }

  ghost function Rounds(n: nat): seq<Turn> {
    if n == 0 then [] else [ServerTurn, ClientTurn] + Rounds(n - 1)
  }

  /** The server takes every other turn, beginning with the first. */
  lemma {:induction false} TurnOf(n: nat, k: nat)
    requires k < 2 * n
    ensures |Rounds(n)| == 2 * n && Rounds(n)[k] == if k % 2 == 0 then ServerTurn else ClientTurn
    decreases n
  {
    var rest := Rounds(n - 1);
    assert Rounds(n) == [Rounds(n)[0], Rounds(n)[1]] + rest;
    if n == 1 {
      assert rest == [];
    } else {
      TurnOf(n - 1, if k < 2 then 0 else k - 2);
    }
  }

  lemma {:induction false} CompleteTraceIsRounds(count: nat, done: nat, trace: seq<Turn>)
    requires done <= count
    requires Accepts(count, 2 * done, trace) && |trace| == 2 * (count - done)
    ensures trace == Rounds(count - done)
    decreases count - done
  {
    if done == count {
    } else {
      assert Accepts(count, 2 * done + 1, trace[1..]);
      assert trace[1..][1..] == trace[2..];
      CompleteTraceIsRounds(count, done + 1, trace[2..]);
      assert trace == [trace[0], trace[1]] + trace[2..];
    }
  }
}
