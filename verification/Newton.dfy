/** Distances on the map: the square root by Newton's iteration, over the reals. */
module Newton {

  const EPSILON := 0.001

  function Square(x: real): real { x * x }

  predicate Close(num: real, guess: real) {
    !(Square(guess) - num > EPSILON) && !(num - Square(guess) > EPSILON)
  }

  /** The guess after `k` passes of the loop. */
  function Guess(num: real, k: nat): (g: real)
    requires num > 0.0
    ensures g > 0.0
  {
    if k == 0 then num / 2.0
    else
      var g := Guess(num, k - 1);
      PositiveQuotient(num, g);
      (g + num / g) / 2.0
  }

  function Error(num: real, k: nat): real
    requires num > 0.0
  {
    Square(Guess(num, k)) - num
  }

  lemma PositiveQuotient(a: real, b: real)
    requires a > 0.0 && b > 0.0
    ensures a / b > 0.0 && (a / b) * b == a
  {
  }

  /** One pass: the new error is a square, so it is never negative. */
  lemma NextError(num: real, g: real, q: real)
    requires g > 0.0 && q > 0.0 && q * g == num
    ensures Square((g + q) / 2.0) - num == Square(g - q) / 4.0
    ensures Square(g - q) >= 0.0
  {
    assert Square((g + q) / 2.0) == (Square(g) + 2.0 * (q * g) + Square(q)) / 4.0;
    assert Square(g - q) == Square(g) - 2.0 * (q * g) + Square(q);
  }

  lemma NegativeProduct(g: real, d: real)
    requires g > 0.0 && d < 0.0
    ensures g * d < 0.0
  {
  }

  lemma SmallerFactor(p: real, a: real, b: real)
    requires p >= 0.0 && a <= b
    ensures p * a <= p * b
  {
  }

  /** From a guess that is not too small, the error falls to a quarter at least. */
  lemma ErrorQuarters(num: real, g: real, q: real)
    requires g > 0.0 && q > 0.0 && q * g == num && Square(g) >= num
    ensures 0.0 <= Square((g + q) / 2.0) - num <= (Square(g) - num) / 4.0
  {
    NextError(num, g, q);
    var d := g - q;
    assert g * d == Square(g) - num;
    if d < 0.0 {
      NegativeProduct(g, d);
      assert false;
    }
    SmallerFactor(d, d, g);
  }

  /** After the first pass every guess is at least the root. */
  lemma NeverBelow(num: real, k: nat)
    requires num > 0.0 && k > 0
    ensures Error(num, k) >= 0.0
  {
    var g := Guess(num, k - 1);
    PositiveQuotient(num, g);
    NextError(num, g, num / g);
  }

  lemma Quarters(num: real, k: nat)
    requires num > 0.0 && k > 0
    ensures 0.0 <= Error(num, k + 1) <= Error(num, k) / 4.0
  {
    var g := Guess(num, k);
    NeverBelow(num, k);
    PositiveQuotient(num, g);
    ErrorQuarters(num, g, num / g);
  }

  function Pow4(n: nat): (r: real)
    ensures r > 0.0
  {
    if n == 0 then 1.0 else 4.0 * Pow4(n - 1)
  }

  lemma Regroup(p: real, f: real)
    ensures (4.0 * p) * f == p * (4.0 * f)
  {
  }

  /** The error shrinks geometrically: it costs a pass for every factor of four. */
  lemma {:induction false} ErrorShrinks(num: real, k: nat)
    requires num > 0.0 && k > 0
    ensures Pow4(k - 1) * Error(num, k) <= Error(num, 1)
  {
    if k > 1 {
      var p, e, f := Pow4(k - 2), Error(num, k - 1), Error(num, k);
      ErrorShrinks(num, k - 1);
      Quarters(num, k - 1);
      SmallerFactor(p, 4.0 * f, e);
      assert Pow4(k - 1) == 4.0 * p;
      Regroup(p, f);
    }
  }

  /** The loop stopped after exactly `passes` passes. */
  ghost predicate StopsAfter(num: real, passes: nat)
    requires num > 0.0
  {
    Close(num, Guess(num, passes)) && forall j :: 0 <= j < passes ==> !Close(num, Guess(num, j))
  }

  /** What the square root function returns. */
  ghost predicate Root(num: real, r: real) {
    if num < 0.0 then r == -1.0
    else if num == 0.0 then r == 0.0
    else exists passes: nat :: StopsAfter(num, passes) && r == Guess(num, passes)
  }

  /** Outside the tolerance a pass lowers the error by more than a fixed amount. */
  lemma PassProgress(num: real, k: nat)
    requires num > 0.0 && k > 0 && !Close(num, Guess(num, k))
    ensures 0.0 <= Error(num, k + 1) && (Error(num, k + 1) * 2000.0).Floor < (Error(num, k) * 2000.0).Floor
  {
    NeverBelow(num, k);
    Quarters(num, k);
  }

  lemma PassesBounded(num: real, passes: nat)
    requires num > 0.0 && passes > 1 && !Close(num, Guess(num, passes - 1))
    ensures Pow4(passes - 2) * EPSILON < Error(num, 1)
  {
    var p, e := Pow4(passes - 2), Error(num, passes - 1);
    NeverBelow(num, passes - 1);
    ErrorShrinks(num, passes - 1);
    assert p * (e - EPSILON) > 0.0;
  }

  /** Terminates for every number.  The result is the first guess whose square is
      within the tolerance, and the passes are no more than one, and one for every
      factor of four between the tolerance and the error of the first. */
  method CustomSqrt(num: real) returns (guess: real, ghost passes: nat)
    ensures Root(num, guess)
    ensures num >= 0.0 ==> guess >= 0.0 && -EPSILON <= Square(guess) - num <= EPSILON
    ensures num > 0.0 ==> StopsAfter(num, passes) && guess == Guess(num, passes)
    ensures num > 0.0 && passes > 1 ==> Pow4(passes - 2) * EPSILON < Error(num, 1)
  {
    guess := num / 2.0;
    passes := 0;
    if num < 0.0 {
      return -1.0, 0;
    }
    while Square(guess) - num > EPSILON || num - Square(guess) > EPSILON
      invariant num == 0.0 ==> guess == 0.0
      invariant num > 0.0 ==> guess == Guess(num, passes) && forall j :: 0 <= j < passes ==> !Close(num, Guess(num, j))
      decreases if passes == 0 then 1 else 0, if passes == 0 then 0 else ((Square(guess) - num) * 2000.0).Floor
    {
      assert Square(0.0) == 0.0;
      if passes > 0 {
        PassProgress(num, passes);
      }
      guess := (guess + num / guess) / 2.0;
      passes := passes + 1;
      assert guess == Guess(num, passes);
    }
    assert Square(0.0) == 0.0;
    if num > 0.0 && passes > 1 {
      PassesBounded(num, passes);
    }
  }

  /** The result squared is the number, but for a thousandth; -1 stands for no result. */
  lemma RootIsClose(num: real, r: real)
    requires Root(num, r)
    ensures num >= 0.0 ==> r >= 0.0 && -0.001 <= r * r - num <= 0.001
    ensures num < 0.0 ==> r == -1.0
  {
    if num > 0.0 {
      var passes: nat :| StopsAfter(num, passes) && r == Guess(num, passes);
      assert Close(num, r) && Square(r) == r * r;
    }
  }

  /** There is exactly one such result for every number. */
  lemma RootUnique(num: real, r: real, r': real)
    requires Root(num, r) && Root(num, r')
    ensures r == r'
  {
    if num > 0.0 {
      var p: nat :| StopsAfter(num, p) && r == Guess(num, p);
      var q: nat :| StopsAfter(num, q) && r' == Guess(num, q);
    }
  }

  /** The first guess is half the number, and each pass takes the mean of the guess and
      of what the number divided by it gives: no pass for 4, three for 1. */
  lemma SquareRoots(r: real, u: real)
    requires Root(4.0, r) && Root(1.0, u)
    ensures r == 2.0 && 2.05 * u == 2.050625
  {
    assert Guess(4.0, 0) == 2.0 && Square(2.0) == 4.0;
    RootUnique(4.0, r, 2.0) by {
      assert StopsAfter(4.0, 0);
    }
    ThreePasses();
    RootUnique(1.0, u, Guess(1.0, 3));
  }

  lemma ThreePasses()
    ensures Root(1.0, Guess(1.0, 3)) && 2.05 * Guess(1.0, 3) == 2.050625
  {
    assert Guess(1.0, 0) == 0.5;
    assert Guess(1.0, 1) == 1.25;
    assert Guess(1.0, 2) == 1.025;
    var g := Guess(1.0, 3);
    PositiveQuotient(1.0, 1.025);
    assert g == (1.025 + 1.0 / 1.025) / 2.0;
    assert 2.05 * g == 2.050625;
    assert Square(0.5) == 0.25 && Square(1.25) == 1.5625 && Square(1.025) == 1.050625;
    assert 4.2025 * Square(g) == 2.050625 * 2.050625;
    assert StopsAfter(1.0, 3);
  }

  function SquaredDistance(x1: real, y1: real, x2: real, y2: real): (d: real)
  {
    Square(x2 - x1) + Square(y2 - y1)
  }

  lemma DistanceIsClose(x1: real, y1: real, x2: real, y2: real, d: real)
    requires d >= 0.0 && -0.001 <= d * d - SquaredDistance(x1, y1, x2, y2) <= 0.001
    ensures -0.001 <= d * d - ((x2 - x1) * (x2 - x1) + (y2 - y1) * (y2 - y1)) <= 0.001
    ensures (x2 - x1) * (x2 - x1) + (y2 - y1) * (y2 - y1) > 0.001 ==> d > 0.0
  {
    assert SquaredDistance(x1, y1, x2, y2) == (x2 - x1) * (x2 - x1) + (y2 - y1) * (y2 - y1);
    if d == 0.0 {
      assert d * d == 0.0;
    }
  }

  method CalculateDistance(x1: real, y1: real, x2: real, y2: real) returns (d: real)
    ensures Root(SquaredDistance(x1, y1, x2, y2), d)
    ensures d >= 0.0
    ensures -0.001 <= d * d - ((x2 - x1) * (x2 - x1) + (y2 - y1) * (y2 - y1)) <= 0.001
    ensures x1 == x2 && y1 == y2 ==> d == 0.0
    ensures (x2 - x1) * (x2 - x1) + (y2 - y1) * (y2 - y1) > 0.001 ==> d > 0.0
  {
    var dx := x2 - x1;
    var dy := y2 - y1;
    assert Square(dx) >= 0.0 && Square(dy) >= 0.0;
    ghost var passes;
    d, passes := CustomSqrt(Square(dx) + Square(dy));
    RootIsClose(SquaredDistance(x1, y1, x2, y2), d);
    DistanceIsClose(x1, y1, x2, y2, d);
  }

  /** The computed distance is the same in both directions. */
  lemma DistanceSymmetric(x1: real, y1: real, x2: real, y2: real, d: real, e: real)
    requires Root(SquaredDistance(x1, y1, x2, y2), d) && Root(SquaredDistance(x2, y2, x1, y1), e)
    ensures d == e
  {
    assert Square(x2 - x1) == Square(x1 - x2) && Square(y2 - y1) == Square(y1 - y2);
    RootUnique(SquaredDistance(x1, y1, x2, y2), d, e);
  }
}
