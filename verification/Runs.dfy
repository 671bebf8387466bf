/** Runs of a system of atomic steps: any interleaving is a sequence of actions, each of which
    is possible where it is taken. */
module Runs {

  datatype System<!S(!new), !A(!new)> = System(possible: (S, A) -> bool, next: (S, A) -> S)

  ghost predicate Legal<S(!new), A(!new)>(sys: System<S, A>, s: S, run: seq<A>)
    decreases |run|
  {
    run == [] || (sys.possible(s, run[0]) && Legal(sys, sys.next(s, run[0]), run[1..]))
  }

  ghost function After<S(!new), A(!new)>(sys: System<S, A>, s: S, run: seq<A>): S
    decreases |run|
  {
    if run == [] then s else After(sys, sys.next(s, run[0]), run[1..])
  }

  lemma {:induction false} RunsCompose<S(!new), A(!new)>(sys: System<S, A>, s: S, first: seq<A>, second: seq<A>)
    ensures After(sys, s, first + second) == After(sys, After(sys, s, first), second)
    ensures Legal(sys, s, first + second) <==> Legal(sys, s, first) && Legal(sys, After(sys, s, first), second)
    decreases |first|
  {
    if first == [] {
      assert first + second == second;
    } else {
      RunsCompose(sys, sys.next(s, first[0]), first[1..], second);
      assert (first + second)[1..] == first[1..] + second;
    }
  }

  lemma OneStepMore<S(!new), A(!new)>(sys: System<S, A>, s: S, run: seq<A>, a: A)
    requires Legal(sys, s, run) && sys.possible(After(sys, s, run), a)
    ensures Legal(sys, s, run + [a])
    ensures After(sys, s, run + [a]) == sys.next(After(sys, s, run), a)
  {
    assert [a][1..] == [];
    assert Legal(sys, After(sys, s, run), [a]);
    RunsCompose(sys, s, run, [a]);
  }

  lemma OneStepFirst<S(!new), A(!new)>(sys: System<S, A>, s: S, a: A, rest: seq<A>)
    requires sys.possible(s, a) && Legal(sys, sys.next(s, a), rest)
    ensures Legal(sys, s, [a] + rest)
    ensures After(sys, s, [a] + rest) == After(sys, sys.next(s, a), rest)
  {
    assert ([a] + rest)[1..] == rest;
  }

  /** What every step keeps holds after every run. */
  lemma {:induction false} RunKeeps<S(!new), A(!new)>(sys: System<S, A>, inv: S -> bool, s: S, run: seq<A>)
    requires forall s, a :: inv(s) && sys.possible(s, a) ==> inv(sys.next(s, a))
    requires inv(s) && Legal(sys, s, run)
    ensures inv(After(sys, s, run))
    decreases |run|
  {
    if run == [] {
    } else {
      RunKeeps(sys, inv, sys.next(s, run[0]), run[1..]);
    }
  }

  /** Every step of the run is `ok` where it is taken. */
  ghost predicate Throughout<S(!new), A(!new)>(sys: System<S, A>, ok: (S, A) -> bool, s: S, run: seq<A>)
    decreases |run|
  {
    run == [] || (ok(s, run[0]) && Throughout(sys, ok, sys.next(s, run[0]), run[1..]))
  }

  lemma {:induction false} ThroughoutAny<S(!new), A(!new)>(
      sys: System<S, A>, ok: (S, A) -> bool, s: S, run: seq<A>)
    requires forall s, a :: ok(s, a)
    ensures Throughout(sys, ok, s, run)
    decreases |run|
  {
    if run == [] {
    } else {
      ThroughoutAny(sys, ok, sys.next(s, run[0]), run[1..]);
    }
  }

  /** What the steps of a run give out, in order. */
  ghost function Output<S(!new), A(!new), V>(sys: System<S, A>, out: (S, A) -> seq<V>, s: S, run: seq<A>): seq<V>
    decreases |run|
  {
    if run == [] then [] else out(s, run[0]) + Output(sys, out, sys.next(s, run[0]), run[1..])
  }

  /** A part of the state that every `ok` step lengthens by what it gives out is lengthened by
      a run of such steps by all that the run gives out. */
  lemma {:induction false} RunAppends<S(!new), A(!new), V>(
      sys: System<S, A>, inv: S -> bool, ok: (S, A) -> bool, out: (S, A) -> seq<V>, part: S -> seq<V>,
      s: S, run: seq<A>)
    requires forall s, a :: inv(s) && sys.possible(s, a) && ok(s, a) ==>
               inv(sys.next(s, a)) && part(sys.next(s, a)) == part(s) + out(s, a)
    requires inv(s) && Legal(sys, s, run) && Throughout(sys, ok, s, run)
    ensures inv(After(sys, s, run))
    ensures part(After(sys, s, run)) == part(s) + Output(sys, out, s, run)
    decreases |run|
  {
    if run == [] {
      assert part(s) + [] == part(s);
    } else {
      var t, one := sys.next(s, run[0]), out(s, run[0]);
      RunAppends(sys, inv, ok, out, part, t, run[1..]);
      var rest := Output(sys, out, t, run[1..]);
      assert (part(s) + one) + rest == part(s) + (one + rest);
    }
  }

  // ---------------------------------------------------------------- runs without an end

  /** What a scheduler that never stops makes of a system: the state before each step, and the
      step. */
  datatype Endless<!S(!new), !A(!new)> = Endless(state: nat -> S, step: nat -> A)

  /** Step `k` is possible unless the state is final, and leads to the next state. */
  ghost predicate Takes<S(!new), A(!new)>(sys: System<S, A>, final: S -> bool, r: Endless<S, A>, k: nat) {
    && (final(r.state(k)) || sys.possible(r.state(k), r.step(k)))
    && r.state(k + 1) == if final(r.state(k)) then r.state(k) else sys.next(r.state(k), r.step(k))
  }

  ghost predicate Follows<S(!new), A(!new)>(sys: System<S, A>, final: S -> bool, s: S, r: Endless<S, A>) {
    r.state(0) == s && forall k: nat :: Takes(sys, final, r, k)
  }

  /** What every step keeps holds all along. */
  lemma {:induction false} AllAlong<S(!new), A(!new)>(
      sys: System<S, A>, inv: S -> bool, final: S -> bool, s: S, r: Endless<S, A>, k: nat)
    requires forall s, a :: inv(s) && sys.possible(s, a) ==> inv(sys.next(s, a))
    requires inv(s) && Follows(sys, final, s, r)
    ensures inv(r.state(k))
    decreases k
  {
    if k == 0 {
    } else {
      AllAlong(sys, inv, final, s, r, k - 1);
      assert Takes(sys, final, r, k - 1);
    }
  }
}
