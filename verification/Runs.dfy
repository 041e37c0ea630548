/** A state machine run over a sequence of steps. */
module Runs {

  function Run<S, T>(next: (S, T) -> S, start: S, steps: seq<T>): S
    decreases |steps|
  {
    if steps == [] then start else next(Run(next, start, steps[..|steps| - 1]), steps[|steps| - 1])
  }

  lemma RunThenStep<S, T>(next: (S, T) -> S, start: S, steps: seq<T>, step: T)
    ensures Run(next, start, steps + [step]) == next(Run(next, start, steps), step)
  {
    assert (steps + [step])[..|steps|] == steps;
  }

  /** A run may be cut after its first step. */
  lemma {:induction false} RunAfterStep<S, T>(next: (S, T) -> S, start: S, step: T, rest: seq<T>)
    ensures Run(next, start, [step] + rest) == Run(next, next(start, step), rest)
  {
    if rest == [] {
      RunThenStep(next, start, [], step);
      assert [step] + rest == [] + [step];
    } else {
      var n := |rest| - 1;
      RunAfterStep(next, start, step, rest[..n]);
      RunThenStep(next, start, [step] + rest[..n], rest[n]);
      assert [step] + rest == ([step] + rest[..n]) + [rest[n]];
    }
  }

  lemma RunOfTwo<S, T>(next: (S, T) -> S, start: S, a: T, b: T)
    ensures Run(next, start, [a, b]) == next(next(start, a), b)
  {
    RunThenStep(next, start, [], a);
    RunThenStep(next, start, [a], b);
    assert [] + [a] == [a] && [a] + [b] == [a, b];
  }

  lemma RunOfThree<S, T>(next: (S, T) -> S, start: S, a: T, b: T, c: T)
    ensures Run(next, start, [a, b, c]) == next(next(next(start, a), b), c)
  {
    RunOfTwo(next, start, a, b);
    RunThenStep(next, start, [a, b], c);
    assert [a, b] + [c] == [a, b, c];
  }

  lemma RunOfFour<S, T>(next: (S, T) -> S, start: S, a: T, b: T, c: T, e: T)
    ensures Run(next, start, [a, b, c, e]) == next(next(next(next(start, a), b), c), e)
  {
    RunOfThree(next, start, a, b, c);
    RunThenStep(next, start, [a, b, c], e);
    assert [a, b, c] + [e] == [a, b, c, e];
  }
}
