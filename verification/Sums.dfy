/** Sums over the threads of a system.

    A system state holds one sequence of phases per kind of thread.  The
    invariants speak of totals over such a sequence: how many apparatus its
    threads hold, which orders are in their hands.  A step changes the phase of
    one thread, so every total changes by the difference of two terms. */
module Sums {

  /** The sum of `f` over `xs`. */
  ghost function Sum<T>(f: T -> int, xs: seq<T>): int {
    if |xs| == 0 then 0 else Sum(f, xs[..|xs| - 1]) + f(xs[|xs| - 1])
  }

  /** How often `p` occurs in what the `xs` contribute, where `f(x, p)` says how
      often it occurs in what `x` contributes. */
  ghost function Tally<T, P>(f: (T, P) -> int, xs: seq<T>, p: P): int {
    if |xs| == 0 then 0 else Tally(f, xs[..|xs| - 1], p) + f(xs[|xs| - 1], p)
  }

  lemma {:induction false} SumUpdate<T>(f: T -> int, xs: seq<T>, i: nat, x: T)
    requires i < |xs|
    ensures Sum(f, xs[i := x]) == Sum(f, xs) - f(xs[i]) + f(x)
  {
    var ys, k := xs[i := x], |xs| - 1;
    if i == k {
      assert ys[..k] == xs[..k];
    } else {
      assert ys[..k] == xs[..k][i := x];
      SumUpdate(f, xs[..k], i, x);
    }
  }

  lemma {:induction false} SumSame<T>(f: T -> int, xs: seq<T>, ys: seq<T>)
    requires |xs| == |ys| && forall i :: 0 <= i < |xs| ==> f(xs[i]) == f(ys[i])
    ensures Sum(f, xs) == Sum(f, ys)
  {
    if |xs| > 0 {
      SumSame(f, xs[..|xs| - 1], ys[..|ys| - 1]);
    }
  }

  lemma SumAppend<T>(f: T -> int, xs: seq<T>, x: T)
    ensures Sum(f, xs + [x]) == Sum(f, xs) + f(x)
  {
    assert (xs + [x])[..|xs|] == xs;
  }

  /** A sum of terms that are never negative is never negative, and when it is
      zero so is every term. */
  lemma {:induction false} SumNonneg<T>(f: T -> int, xs: seq<T>)
    requires forall i :: 0 <= i < |xs| ==> f(xs[i]) >= 0
    ensures Sum(f, xs) >= 0
    ensures Sum(f, xs) == 0 ==> forall i :: 0 <= i < |xs| ==> f(xs[i]) == 0
  {
    if |xs| > 0 {
      SumNonneg(f, xs[..|xs| - 1]);
      if Sum(f, xs) == 0 {
        forall i | 0 <= i < |xs| ensures f(xs[i]) == 0 {
          assert i < |xs| - 1 ==> xs[..|xs| - 1][i] == xs[i];
        }
      }
    }
  }

  lemma {:induction false} SumZero<T>(f: T -> int, xs: seq<T>)
    requires forall i :: 0 <= i < |xs| ==> f(xs[i]) == 0
    ensures Sum(f, xs) == 0
  {
    if |xs| > 0 {
      SumZero(f, xs[..|xs| - 1]);
    }
  }

  /** Termwise comparison carries over to the sums. */
  lemma {:induction false} SumMonotone<T>(f: T -> int, g: T -> int, xs: seq<T>)
    requires forall i :: 0 <= i < |xs| ==> f(xs[i]) <= g(xs[i])
    ensures Sum(f, xs) <= Sum(g, xs)
  {
    if |xs| > 0 {
      SumMonotone(f, g, xs[..|xs| - 1]);
    }
  }

  lemma {:induction false} SumAtMost<T>(f: T -> int, bound: nat, xs: seq<T>)
    requires forall i :: 0 <= i < |xs| ==> f(xs[i]) <= bound
    ensures Sum(f, xs) <= bound * |xs|
  {
    if |xs| > 0 {
      SumAtMost(f, bound, xs[..|xs| - 1]);
    }
  }

  lemma {:induction false} TallyUpdate<T, P>(f: (T, P) -> int, xs: seq<T>, i: nat, x: T, p: P)
    requires i < |xs|
    ensures Tally(f, xs[i := x], p) == Tally(f, xs, p) - f(xs[i], p) + f(x, p)
  {
    var ys, k := xs[i := x], |xs| - 1;
    if i == k {
      assert ys[..k] == xs[..k];
    } else {
      assert ys[..k] == xs[..k][i := x];
      TallyUpdate(f, xs[..k], i, x, p);
    }
  }

  lemma TallyAppend<T, P>(f: (T, P) -> int, xs: seq<T>, x: T, p: P)
    ensures Tally(f, xs + [x], p) == Tally(f, xs, p) + f(x, p)
  {
    assert (xs + [x])[..|xs|] == xs;
  }

  lemma {:induction false} TallySame<T, P>(f: (T, P) -> int, xs: seq<T>, ys: seq<T>, p: P)
    requires |xs| == |ys| && forall i :: 0 <= i < |xs| ==> f(xs[i], p) == f(ys[i], p)
    ensures Tally(f, xs, p) == Tally(f, ys, p)
  {
    if |xs| > 0 {
      TallySame(f, xs[..|xs| - 1], ys[..|ys| - 1], p);
    }
  }

  lemma {:induction false} TallyHead<T, P>(f: (T, P) -> int, xs: seq<T>, p: P)
    requires |xs| > 0
    ensures Tally(f, xs, p) == f(xs[0], p) + Tally(f, xs[1..], p)
  {
    var k := |xs| - 1;
    if k > 0 {
      TallyHead(f, xs[..k], p);
      assert xs[..k][1..] == xs[1..][..k - 1];
    }
  }

  lemma {:induction false} TallyZero<T, P>(f: (T, P) -> int, xs: seq<T>, p: P)
    requires forall i :: 0 <= i < |xs| ==> f(xs[i], p) == 0
    ensures Tally(f, xs, p) == 0
  {
    if |xs| > 0 {
      TallyZero(f, xs[..|xs| - 1], p);
    }
  }

  /** One positive term makes a tally of terms that are never negative positive. */
  lemma {:induction false} TallyPositive<T, P>(f: (T, P) -> int, xs: seq<T>, p: P)
    requires forall i :: 0 <= i < |xs| ==> f(xs[i], p) >= 0
    ensures Tally(f, xs, p) >= 0
    ensures forall i :: 0 <= i < |xs| ==> Tally(f, xs, p) >= f(xs[i], p)
  {
    if |xs| > 0 {
      TallyPositive(f, xs[..|xs| - 1], p);
      forall i | 0 <= i < |xs| ensures Tally(f, xs, p) >= f(xs[i], p) {
        assert i < |xs| - 1 ==> xs[..|xs| - 1][i] == xs[i];
      }
    }
  }

  /** One occurrence for an element that equals `p`. */
  ghost function One<P>(x: P, p: P): int {
    if x == p then 1 else 0
  }

  lemma {:induction false} TallyOne<P>(xs: seq<P>, p: P)
    ensures Tally(One, xs, p) == multiset(xs)[p]
  {
    if |xs| > 0 {
      TallyOne(xs[..|xs| - 1], p);
      assert xs == xs[..|xs| - 1] + [xs[|xs| - 1]];
    }
  }
}
