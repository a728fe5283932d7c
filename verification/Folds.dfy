/** Lists of steps that may fail, and when their order does not matter. */
module Folds {
  import opened Results

  /** The steps of the list one after the other; the first failure ends it. */
  function Fold<S, X, E>(f: (S, X) -> Result<S, E>, s: S, xs: seq<X>): Result<S, E>
  {
    if xs == [] then Ok(s)
    else
      var first :- f(s, xs[0]);
      Fold(f, first, xs[1..])
  }

  /** Wherever x and then y goes through, so does y and then x, with the same result. */
  ghost predicate Commutes<S(!new), X, E>(f: (S, X) -> Result<S, E>, x: X, y: X)
  {
    forall s :: f(s, x).Ok? && f(f(s, x).value, y).Ok? ==>
                  f(s, y).Ok? && f(f(s, y).value, x) == f(f(s, x).value, y)
  }

  lemma FoldCons<S, X, E>(f: (S, X) -> Result<S, E>, s: S, x: X, xs: seq<X>)
    ensures Fold(f, s, [x] + xs) == if f(s, x).Ok? then Fold(f, f(s, x).value, xs) else f(s, x)
  {
    assert ([x] + xs)[1..] == xs;
  }

  lemma FrontSwap<S(!new), X, E>(f: (S, X) -> Result<S, E>, s: S, x: X, y: X, rest: seq<X>)
    requires Commutes(f, x, y)
    requires Fold(f, s, [x] + ([y] + rest)).Ok?
    ensures Fold(f, s, [y] + ([x] + rest)) == Fold(f, s, [x] + ([y] + rest))
  {
    FoldCons(f, s, x, [y] + rest);
    FoldCons(f, f(s, x).value, y, rest);
    FoldCons(f, s, y, [x] + rest);
    FoldCons(f, f(s, y).value, x, rest);
  }

  /** x commutes with every step of the list. */
  ghost predicate CommutesWithAll<S(!new), X, E>(f: (S, X) -> Result<S, E>, x: X, ys: seq<X>)
  {
    forall y :: y in ys ==> Commutes(f, x, y)
  }

  /** The first step moves to any later place. */
  lemma {:induction false} MoveBack<S(!new), X, E>(f: (S, X) -> Result<S, E>, s: S, x: X, front: seq<X>, rest: seq<X>)
    requires CommutesWithAll(f, x, front)
    requires Fold(f, s, [x] + (front + rest)).Ok?
    ensures Fold(f, s, front + ([x] + rest)) == Fold(f, s, [x] + (front + rest))
    decreases |front|
  {
    if front == [] {
      assert front + rest == rest && front + ([x] + rest) == [x] + rest;
    } else {
      var y, others := front[0], front[1..];
      assert front + rest == [y] + (others + rest);
      FrontSwap(f, s, x, y, others + rest);
      FoldCons(f, s, y, [x] + (others + rest));
      MoveBack(f, f(s, y).value, x, others, rest);
      assert front + ([x] + rest) == [y] + (others + ([x] + rest));
      FoldCons(f, s, y, others + ([x] + rest));
    }
  }

  /** Where the head of a list stands in a permutation of it, and what is around it there. */
  lemma SplitAtHead<X>(x: X, rest: seq<X>, ys: seq<X>) returns (front: seq<X>, back: seq<X>)
    requires multiset([x] + rest) == multiset(ys)
    ensures ys == front + ([x] + back)
    ensures multiset(rest) == multiset(front + back)
    ensures forall y :: y in front ==> y in rest
  {
    assert x in [x] + rest && x in multiset([x] + rest) && x in multiset(ys);
    var j :| 0 <= j < |ys| && ys[j] == x;
    front, back := ys[..j], ys[j + 1..];
    assert ys == front + ([x] + back);
    assert multiset(ys) == multiset(front) + (multiset([x]) + multiset(back));
    assert multiset(front + back) == multiset(front) + multiset(back);
    assert multiset(rest) == multiset([x] + rest) - multiset([x]);
    forall y | y in front
      ensures y in rest
    {
      assert y in front + back && y in multiset(front + back);
      assert multiset(rest) == multiset(front + back);
    }
  }

  ghost predicate AllCommute<S(!new), X, E>(f: (S, X) -> Result<S, E>, xs: seq<X>)
    decreases |xs|
  {
    xs == [] || (CommutesWithAll(f, xs[0], xs[1..]) && AllCommute(f, xs[1..]))
  }

  lemma {:induction false} PairwiseAllCommute<S(!new), X, E>(f: (S, X) -> Result<S, E>, xs: seq<X>)
    requires forall i, j :: 0 <= i < j < |xs| ==> Commutes(f, xs[i], xs[j])
    ensures AllCommute(f, xs)
    decreases |xs|
  {
    if xs != [] {
      PairwiseAllCommute(f, xs[1..]);
    }
  }

  /** A list of pairwise commuting steps that goes through does so in every order, with the same result. */
  lemma {:induction false} FoldPermutes<S(!new), X, E>(f: (S, X) -> Result<S, E>, s: S, xs: seq<X>, ys: seq<X>)
    requires multiset(xs) == multiset(ys)
    requires AllCommute(f, xs)
    requires Fold(f, s, xs).Ok?
    ensures Fold(f, s, ys) == Fold(f, s, xs)
    decreases |xs|
  {
    if xs == [] {
      assert |multiset(ys)| == 0;
    } else {
      var x, rest := xs[0], xs[1..];
      assert xs == [x] + rest;
      var front, back := SplitAtHead(x, rest, ys);
      FoldCons(f, s, x, rest);
      FoldPermutes(f, f(s, x).value, rest, front + back);
      FoldCons(f, s, x, front + back);
      MoveBack(f, s, x, front, back);
    }
  }
}
