/** Runs of a state machine given by its guard and its step. */
module Execution {

  datatype Machine<!S, !T> = Machine(enabled: (S, T) -> bool, next: (S, T) -> S)

  ghost predicate Runs<S, T>(m: Machine<S, T>, s: S, steps: seq<T>)
    decreases |steps|
  {
    steps == [] || (m.enabled(s, steps[0]) && Runs(m, m.next(s, steps[0]), steps[1..]))
  }

  ghost function After<S, T>(m: Machine<S, T>, s: S, steps: seq<T>): S
    requires Runs(m, s, steps)
    decreases |steps|
  {
    if steps == [] then s else After(m, m.next(s, steps[0]), steps[1..])
  }

  lemma Prepend<S, T>(m: Machine<S, T>, s: S, step: T, rest: seq<T>)
    requires m.enabled(s, step) && Runs(m, m.next(s, step), rest)
    ensures Runs(m, s, [step] + rest) && After(m, s, [step] + rest) == After(m, m.next(s, step), rest)
  {
    assert ([step] + rest)[1..] == rest;
  }

  lemma {:induction false} RunsInParts<S, T>(m: Machine<S, T>, s: S, a: seq<T>, b: seq<T>)
    requires Runs(m, s, a) && Runs(m, After(m, s, a), b)
    ensures Runs(m, s, a + b) && After(m, s, a + b) == After(m, After(m, s, a), b)
    decreases |a|
  {
    if a == [] {
      assert a + b == b;
    } else {
      RunsInParts(m, m.next(s, a[0]), a[1..], b);
      Prepend(m, s, a[0], a[1..] + b);
      assert [a[0]] + (a[1..] + b) == a + b;
    }
  }

  lemma RunsInThree<S, T>(m: Machine<S, T>, s: S, a: seq<T>, b: seq<T>, c: seq<T>)
    requires Runs(m, s, a) && Runs(m, After(m, s, a), b) && Runs(m, After(m, After(m, s, a), b), c)
    ensures Runs(m, s, a + (b + c)) && After(m, s, a + (b + c)) == After(m, After(m, After(m, s, a), b), c)
  {
    RunsInParts(m, After(m, s, a), b, c);
    RunsInParts(m, s, a, b + c);
  }

  /** What every step keeps, every run keeps. */
  lemma {:induction false} RunKeeps<S, T>(m: Machine<S, T>, inv: S -> bool, s: S, steps: seq<T>)
    requires Runs(m, s, steps) && inv(s)
    requires forall u: S, t: T :: inv(u) && m.enabled(u, t) ==> inv(m.next(u, t))
    ensures inv(After(m, s, steps))
    decreases |steps|
  {
    if steps != [] {
      RunKeeps(m, inv, m.next(s, steps[0]), steps[1..]);
    }
  }
}
