/**
  A JavaScript loop whose body may raise: the body runs on each item in
  turn, on the state the previous run left, collecting one result per item,
  and the first error ends the loop and is the loop's error. The loops of
  lib/SwaggerManager.js that build an API declaration have this shape.
 */
module Folds {
  import opened Json

  /** The loop over the first `n` items, from the state `start`. */
  function FoldSteps<T, R, S>(items: seq<T>, n: nat, start: S, step: (T, S) -> Outcome<(R, S)>): (r: Outcome<(seq<R>, S)>)
    requires n <= |items|
    ensures r.Returns? ==> |r.value.0| == n
  {
    if n == 0 then Returns(([], start))
    else
      match FoldSteps(items, n - 1, start, step)
      case Throws(e) => Throws(e)
      case Returns(acc) =>
        match step(items[n - 1], acc.1)
        case Throws(e) => Throws(e)
        case Returns(next) => Returns((acc.0 + [next.0], next.1))
  }

  /** One more item: its step raises, or its result is pushed and its state carried on. */
  lemma FoldStepsStep<T, R, S>(items: seq<T>, i: nat, start: S, step: (T, S) -> Outcome<(R, S)>, acc: (seq<R>, S))
    requires i < |items|
    requires FoldSteps(items, i, start, step) == Returns(acc)
    ensures step(items[i], acc.1).Throws? ==> FoldSteps(items, i + 1, start, step) == Throws(step(items[i], acc.1).error)
    ensures step(items[i], acc.1).Returns? ==>
      FoldSteps(items, i + 1, start, step) == Returns((acc.0 + [step(items[i], acc.1).value.0], step(items[i], acc.1).value.1))
  {
  }

  /** A loop over `i + 1` items that returns ran its first `i` items without raising. */
  lemma FoldStepsPrefixReturns<T, R, S>(items: seq<T>, i: nat, start: S, step: (T, S) -> Outcome<(R, S)>)
    requires i < |items|
    requires FoldSteps(items, i + 1, start, step).Returns?
    ensures FoldSteps(items, i, start, step).Returns?
  {
  }

  /** Once a step raises, the whole loop raises the same error. */
  lemma {:induction false} FoldStepsThrowsPrefix<T, R, S>(items: seq<T>, n: nat, start: S, step: (T, S) -> Outcome<(R, S)>, e: JsError)
    requires n <= |items|
    requires FoldSteps(items, n, start, step) == Throws(e)
    ensures FoldSteps(items, |items|, start, step) == Throws(e)
    decreases |items| - n
  {
    if n < |items| {
      assert FoldSteps(items, n + 1, start, step) == Throws(e);
      FoldStepsThrowsPrefix(items, n + 1, start, step, e);
    }
  }

  /**
    When every result a step returns is related to its item by `rel`, every
    result of the loop is related to its item.
   */
  lemma {:induction false} FoldStepsResults<T, R, S>(items: seq<T>, n: nat, start: S, step: (T, S) -> Outcome<(R, S)>,
                                                     rel: (T, R) -> bool)
    requires n <= |items|
    requires forall t, s :: step(t, s).Returns? ==> rel(t, step(t, s).value.0)
    requires FoldSteps(items, n, start, step).Returns?
    ensures forall j :: 0 <= j < n ==> rel(items[j], FoldSteps(items, n, start, step).value.0[j])
  {
    if n > 0 {
      FoldStepsPrefixReturns(items, n - 1, start, step);
      FoldStepsResults(items, n - 1, start, step, rel);
      var acc := FoldSteps(items, n - 1, start, step).value;
      FoldStepsStep(items, n - 1, start, step, acc);
      var next := step(items[n - 1], acc.1);
      assert next.Returns?;
      StepRelates(step, rel, items[n - 1], acc.1);
      var rs := FoldSteps(items, n, start, step).value.0;
      assert rs == acc.0 + [next.value.0];
      assert rel(items[n - 1], rs[n - 1]);
      assert forall j :: 0 <= j < n - 1 ==> rs[j] == acc.0[j];
    }
  }

  /**
    When every step moves the state along `keep` (a preorder) and leaves
    `mark` holding of its item, its result and the new state, and `mark`
    survives every move along `keep`, then the loop's final state is reached
    from `start` along `keep` and `mark` holds of every item, its result and
    that final state.
   */
  lemma {:induction false} FoldStepsKeeps<T, R, S>(items: seq<T>, n: nat, start: S, step: (T, S) -> Outcome<(R, S)>,
                                                   keep: (S, S) -> bool, mark: (T, R, S) -> bool)
    requires n <= |items|
    requires forall s :: keep(s, s)
    requires forall s0, s1, s2 :: keep(s0, s1) && keep(s1, s2) ==> keep(s0, s2)
    requires forall t, s :: step(t, s).Returns? ==> keep(s, step(t, s).value.1) && mark(t, step(t, s).value.0, step(t, s).value.1)
    requires forall t, r, s, s' :: mark(t, r, s) && keep(s, s') ==> mark(t, r, s')
    requires FoldSteps(items, n, start, step).Returns?
    ensures var fold := FoldSteps(items, n, start, step).value;
      keep(start, fold.1) && forall j :: 0 <= j < n ==> mark(items[j], fold.0[j], fold.1)
  {
    if n > 0 {
      FoldStepsPrefixReturns(items, n - 1, start, step);
      FoldStepsKeeps(items, n - 1, start, step, keep, mark);
      var acc := FoldSteps(items, n - 1, start, step).value;
      FoldStepsStep(items, n - 1, start, step, acc);
      var fold := FoldSteps(items, n, start, step).value;
      assert step(items[n - 1], acc.1).Returns?;
      var next := step(items[n - 1], acc.1).value;
      assert fold == (acc.0 + [next.0], next.1);
      StepKeeps(step, keep, mark, items[n - 1], acc.1);
      KeepTrans(keep, start, acc.1, fold.1);
      forall j | 0 <= j < n - 1
        ensures mark(items[j], fold.0[j], fold.1)
      {
        assert fold.0[j] == acc.0[j];
        MarkSurvives(keep, mark, items[j], acc.0[j], acc.1, fold.1);
      }
    }
  }

  lemma StepRelates<T, R, S>(step: (T, S) -> Outcome<(R, S)>, rel: (T, R) -> bool, t: T, s: S)
    requires forall t, s :: step(t, s).Returns? ==> rel(t, step(t, s).value.0)
    requires step(t, s).Returns?
    ensures rel(t, step(t, s).value.0)
  {
  }

  lemma StepKeeps<T, R, S>(step: (T, S) -> Outcome<(R, S)>, keep: (S, S) -> bool, mark: (T, R, S) -> bool, t: T, s: S)
    requires forall t, s :: step(t, s).Returns? ==> keep(s, step(t, s).value.1) && mark(t, step(t, s).value.0, step(t, s).value.1)
    requires step(t, s).Returns?
    ensures keep(s, step(t, s).value.1) && mark(t, step(t, s).value.0, step(t, s).value.1)
  {
  }

  lemma KeepTrans<S>(keep: (S, S) -> bool, s0: S, s1: S, s2: S)
    requires forall s0, s1, s2 :: keep(s0, s1) && keep(s1, s2) ==> keep(s0, s2)
    requires keep(s0, s1) && keep(s1, s2)
    ensures keep(s0, s2)
  {
  }

  lemma MarkSurvives<T, R, S>(keep: (S, S) -> bool, mark: (T, R, S) -> bool, t: T, r: R, s: S, s': S)
    requires forall t, r, s, s' :: mark(t, r, s) && keep(s, s') ==> mark(t, r, s')
    requires mark(t, r, s) && keep(s, s')
    ensures mark(t, r, s')
  {
  }

  // ----- loops without state -----

  /** The loop over the first `n` items when each run yields a result or raises and carries nothing on. */
  function MapSteps<T, R>(items: seq<T>, n: nat, f: T -> Outcome<R>): (r: Outcome<seq<R>>)
    requires n <= |items|
    ensures r.Returns? ==> |r.value| == n
  {
    if n == 0 then Returns([])
    else
      match MapSteps(items, n - 1, f)
      case Throws(e) => Throws(e)
      case Returns(rs) =>
        match f(items[n - 1])
        case Throws(e) => Throws(e)
        case Returns(x) => Returns(rs + [x])
  }

  /** One more item: it raises, or its result is pushed. */
  lemma MapStepsStep<T, R>(items: seq<T>, i: nat, f: T -> Outcome<R>, rs: seq<R>)
    requires i < |items|
    requires MapSteps(items, i, f) == Returns(rs)
    ensures f(items[i]).Throws? ==> MapSteps(items, i + 1, f) == Throws(f(items[i]).error)
    ensures f(items[i]).Returns? ==> MapSteps(items, i + 1, f) == Returns(rs + [f(items[i]).value])
  {
  }

  /** Once an item raises, the whole loop raises the same error. */
  lemma {:induction false} MapStepsThrowsPrefix<T, R>(items: seq<T>, n: nat, f: T -> Outcome<R>, e: JsError)
    requires n <= |items|
    requires MapSteps(items, n, f) == Throws(e)
    ensures MapSteps(items, |items|, f) == Throws(e)
    decreases |items| - n
  {
    if n < |items| {
      assert MapSteps(items, n + 1, f) == Throws(e);
      MapStepsThrowsPrefix(items, n + 1, f, e);
    }
  }

  /** The loop raises exactly when one of its items does. */
  lemma {:induction false} MapStepsThrowsIff<T, R>(items: seq<T>, n: nat, f: T -> Outcome<R>)
    requires n <= |items|
    ensures MapSteps(items, n, f).Throws? <==> exists i :: 0 <= i < n && f(items[i]).Throws?
  {
    if n > 0 {
      MapStepsThrowsIff(items, n - 1, f);
      if MapSteps(items, n - 1, f).Returns? {
        MapStepsResults(items, n - 1, f);
      }
    }
  }

  /** A loop that returns holds, in order, the result of each item. */
  lemma {:induction false} MapStepsResults<T, R>(items: seq<T>, n: nat, f: T -> Outcome<R>)
    requires n <= |items|
    requires MapSteps(items, n, f).Returns?
    ensures forall i :: 0 <= i < n ==> f(items[i]) == Returns(MapSteps(items, n, f).value[i])
  {
    if n > 0 {
      MapStepsResults(items, n - 1, f);
      var rs := MapSteps(items, n - 1, f).value;
      assert MapSteps(items, n, f).value == rs + [f(items[n - 1]).value];
    }
  }
}
