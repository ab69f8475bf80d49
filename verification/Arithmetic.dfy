/** Floor division: every amount in the two programs is a product divided by a total. */
module Arithmetic {

  /** `floor(a * b / d)` on unbounded integers. */
  function Floor(a: nat, b: nat, d: nat): nat
    requires d > 0
  {
    a * b / d
  }

  /** The two inequalities that characterise a floor. */
  lemma FloorBounds(a: nat, b: nat, d: nat)
    requires d > 0
    ensures Floor(a, b, d) * d <= a * b < Floor(a, b, d) * d + d
  {
    var n := a * b;
    assert n == (n / d) * d + n % d;
  }

  /** Anything at most the exact quotient is at most its floor. */
  lemma FloorGreatest(q: int, a: nat, b: nat, d: nat)
    requires d > 0 && q * d <= a * b
    ensures q <= Floor(a, b, d)
  {
    FloorBounds(a, b, d);
    if q > Floor(a, b, d) {
      MulMono(Floor(a, b, d) + 1, q, d);
    }
  }

  /** Anything above the exact quotient minus one is at least its floor. */
  lemma FloorLeast(q: int, a: nat, b: nat, d: nat)
    requires d > 0 && a * b < q * d + d
    ensures Floor(a, b, d) <= q
  {
    FloorBounds(a, b, d);
    if q < Floor(a, b, d) {
      MulMono(q + 1, Floor(a, b, d), d);
    }
  }

  lemma MulMono(x: int, y: int, d: nat)
    requires x <= y
    ensures x * d <= y * d
  {
    assert y * d - x * d == (y - x) * d;
  }

  lemma MulCancel(x: int, y: int, d: nat)
    requires d > 0 && x * d <= y * d
    ensures x <= y
  {
    if y < x {
      MulMono(y + 1, x, d);
    }
  }

  lemma MulCancelLess(x: int, y: int, d: nat)
    requires d > 0 && x * d < y * d
    ensures x < y
  {
    if y <= x {
      MulMono(y, x, d);
    }
  }

  lemma FloorMono(a: nat, a': nat, b: nat, d: nat)
    requires d > 0 && a <= a'
    ensures Floor(a, b, d) <= Floor(a', b, d)
  {
    FloorBounds(a, b, d);
    MulMono(a, a', b);
    FloorGreatest(Floor(a, b, d), a', b, d);
  }

  lemma FloorMonoSecond(a: nat, b: nat, b': nat, d: nat)
    requires d > 0 && b <= b'
    ensures Floor(a, b, d) <= Floor(a, b', d)
  {
    assert a * b == b * a && a * b' == b' * a;
    FloorMono(b, b', a, d);
  }

  /** A floor of a sum exceeds the sum of the floors by at most one. */
  lemma FloorSum(a: nat, a': nat, b: nat, d: nat)
    requires d > 0
    ensures Floor(a, b, d) + Floor(a', b, d) <= Floor(a + a', b, d) <= Floor(a, b, d) + Floor(a', b, d) + 1
  {
    var x, y := Floor(a, b, d), Floor(a', b, d);
    FloorBounds(a, b, d);
    FloorBounds(a', b, d);
    assert (a + a') * b == a * b + a' * b;
    assert (x + y) * d == x * d + y * d;
    FloorGreatest(x + y, a + a', b, d);
    assert (x + y + 1) * d == x * d + y * d + d;
    FloorLeast(x + y + 1, a + a', b, d);
  }

  /** A part never yields more than the whole. */
  lemma FloorPart(a: nat, b: nat, d: nat)
    requires d > 0 && b <= d
    ensures Floor(a, b, d) <= a
    ensures b == d ==> Floor(a, b, d) == a
  {
    MulMono(b, d, a);
    assert a * b <= a * d;
    FloorBounds(a, b, d);
    MulCancel(Floor(a, b, d), a, d);
    if b == d {
      FloorGreatest(a, a, b, d);
    }
  }

  /**
   * Taking the floor of a pro-rata share leaves the others at least their old share each:
   * the remaining pot per remaining unit never falls.
   */
  lemma RemainderRatio(pot: nat, part: nat, whole: nat)
    requires 0 < whole && part <= whole
    ensures Floor(pot, part, whole) <= pot
    ensures (pot - Floor(pot, part, whole)) * whole >= pot * (whole - part)
  {
    FloorPart(pot, part, whole);
    FloorBounds(pot, part, whole);
    var p := Floor(pot, part, whole);
    assert (pot - p) * whole == pot * whole - p * whole;
    assert pot * (whole - part) == pot * whole - pot * part;
  }

  /** Ratios that do not fall, one after the other. */
  lemma RatioTransitive(a0: nat, b0: nat, a1: nat, b1: nat, a2: nat, b2: nat)
    requires b1 > 0 && a1 * b0 >= a0 * b1 && a2 * b1 >= a1 * b2
    ensures a2 * b0 >= a0 * b2
  {
    MulMono(a1 * b2, a2 * b1, b0);
    MulMono(a0 * b1, a1 * b0, b2);
    assert (a2 * b1) * b0 == (a2 * b0) * b1;
    assert (a1 * b2) * b0 == (a1 * b0) * b2;
    assert (a0 * b1) * b2 == (a0 * b2) * b1;
    MulCancel(a0 * b2, a2 * b0, b1);
  }

  /** The same part of a pot that grew in proportion yields no less. */
  lemma FloorRatio(pot: nat, whole: nat, pot': nat, whole': nat, amount: nat)
    requires whole > 0 && whole' > 0 && pot' * whole >= pot * whole'
    ensures Floor(pot, amount, whole) <= Floor(pot', amount, whole')
  {
    var q := Floor(pot, amount, whole);
    FloorBounds(pot, amount, whole);
    // q * whole <= pot * amount, so q * whole * whole' <= pot * amount * whole' <= pot' * amount * whole
    MulMono(q * whole, pot * amount, whole');
    MulMono(pot * whole', pot' * whole, amount);
    assert (pot * amount) * whole' == (pot * whole') * amount;
    assert (pot' * whole) * amount == (pot' * amount) * whole;
    assert (q * whole) * whole' == (q * whole') * whole;
    MulCancel(q * whole', pot' * amount, whole);
    FloorGreatest(q, pot', amount, whole');
  }

  /**
   * Taking two floored shares one after the other never yields more than taking both at once,
   * and loses at most one unit.
   */
  lemma SplitFloor(pot: nat, first: nat, second: nat, whole: nat)
    requires first < whole && first + second <= whole
    ensures Floor(pot, first, whole) <= pot
    ensures var p := Floor(pot, first, whole);
            var q := Floor(pot - p, second, whole - first);
            p + q <= Floor(pot, first + second, whole) <= p + q + 1
  {
    FloorPart(pot, first, whole);
    var p := Floor(pot, first, whole);
    var rest := whole - first;
    var q := Floor(pot - p, second, rest);
    FloorBounds(pot, first, whole);
    FloorBounds(pot - p, second, rest);
    SplitUpper(pot, first, second, whole, p, q);
    SplitLower(pot, first, second, whole, p, q);
    FloorGreatest(p + q, pot, first + second, whole);
    FloorLeast(p + q + 1, pot, first + second, whole);
  }

  /** The slack of the first floor, `pot * first - p * whole`, is spread over the rest. */
  lemma SplitUpper(pot: nat, first: nat, second: nat, whole: nat, p: nat, q: nat)
    requires first < whole && first + second <= whole && p <= pot
    requires p * whole <= pot * first
    requires q * (whole - first) <= (pot - p) * second
    ensures (p + q) * whole <= pot * (first + second)
  {
    SplitIdentity(pot, first, second, whole - first, p, q);
    WeightedSign(whole - first, whole, pot * (first + second) - (p + q) * whole,
                 pot * first - p * whole, whole - first - second, (pot - p) * second - q * (whole - first));
  }

  lemma SplitLower(pot: nat, first: nat, second: nat, whole: nat, p: nat, q: nat)
    requires first < whole && first + second <= whole && p <= pot
    requires p * whole <= pot * first < p * whole + whole
    requires (pot - p) * second < q * (whole - first) + (whole - first)
    ensures pot * (first + second) < (p + q + 1) * whole + whole
  {
    SplitIdentity(pot, first, second, whole - first, p, q);
    WeightedBound(whole - first, whole, pot * (first + second) - (p + q) * whole,
                  pot * first - p * whole, whole - first - second, (pot - p) * second - q * (whole - first));
    assert (p + q + 1) * whole == (p + q) * whole + whole;
  }

  lemma WeightedSign(rest: int, whole: int, gap: int, slack: int, left: int, slack': int)
    requires rest > 0 && whole > 0 && slack >= 0 && left >= 0 && slack' >= 0
    requires rest * gap == slack * left + whole * slack'
    ensures gap >= 0
  {
    assert slack * left >= 0 && whole * slack' >= 0;
    MulCancel(0, gap, rest);
  }

  lemma WeightedBound(rest: int, whole: int, gap: int, slack: int, left: int, slack': int)
    requires rest > 0 && whole > 0 && 0 <= slack < whole && 0 <= left <= rest && slack' < rest
    requires rest * gap == slack * left + whole * slack'
    ensures gap < 2 * whole
  {
    calc {
      rest * gap;
      slack * left + whole * slack';
    <= { MulMono(slack, whole, left); MulMono(left, rest, whole); }
      whole * rest + whole * slack';
    < { MulMono(slack', rest - 1, whole); assert whole * (rest - 1) == whole * rest - whole; }
      whole * rest + whole * rest;
    }
    assert (2 * whole) * rest == whole * rest + whole * rest;
    MulCancelLess(gap, 2 * whole, rest);
  }

  lemma SplitIdentity(pot: int, first: int, second: int, rest: int, p: int, q: int)
    ensures rest * (pot * (first + second) - (p + q) * (first + rest))
         == (pot * first - p * (first + rest)) * (rest - second)
            + (first + rest) * ((pot - p) * second - q * rest)
  {
    var whole := first + rest;
    assert rest * (pot * (first + second) - (p + q) * whole)
        == rest * (pot * first) + rest * (pot * second) - rest * (p * whole) - rest * (q * whole);
    assert (pot * first - p * whole) * (rest - second)
        == (pot * first) * rest - (p * whole) * rest - (pot * first) * second + (p * whole) * second;
    assert whole * ((pot - p) * second - q * rest)
        == whole * (pot * second) - whole * (p * second) - whole * (q * rest);
    assert whole * (pot * second) == first * (pot * second) + rest * (pot * second);
  }
}
