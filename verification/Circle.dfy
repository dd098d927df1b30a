/** Which points of the integer grid a circle of integer radius consists of, and Bresenham's way to them. */
module Circle {
  import opened Common

  /** y is the square root of r*r - x*x rounded to the nearest integer. */
  predicate Height(r: nat, x: nat, y: nat) {
    && (y == 0 || (2 * y - 1) * (2 * y - 1) < 4 * (r * r - x * x))
    && 4 * (r * r - x * x) < (2 * y + 1) * (2 * y + 1)
  }

  /** The points of the second octant, x running from the axis to the diagonal. */
  predicate InOctant(r: nat, x: nat, y: nat) { x <= y && Height(r, x, y) }

  /** How far the square of the distance to the centre is from the square of the radius. */
  function Excess(r: int, x: int, y: int): int { x * x + y * y - r * r }

  /** The decision variable of the loop. */
  function Decision(r: int, x: int, y: int): int {
    2 * (x + 1) * (x + 1) + y * y + (y - 1) * (y - 1) - 2 * r * r
  }

  lemma DecisionByExcess(r: int, x: int, y: int)
    ensures Decision(r, x, y) == 2 * Excess(r, x, y) + 4 * x - 2 * y + 3
  {}

  lemma ExcessRight(r: int, x: int, y: int)
    ensures Excess(r, x + 1, y) == Excess(r, x, y) + 2 * x + 1
  {}

  lemma ExcessDown(r: int, x: int, y: int)
    ensures Excess(r, x, y - 1) == Excess(r, x, y) - 2 * y + 1
  {}

  /** Rounding in terms of the excess, which makes it linear. */
  lemma {:induction false} HeightByExcess(r: nat, x: nat, y: nat)
    ensures Height(r, x, y) <==> Excess(r, x, y) + y >= 0 && (y == 0 || Excess(r, x, y) <= y - 1)
  {
    var e := Excess(r, x, y);
    assert (2 * y + 1) * (2 * y + 1) == 4 * (y * y) + 4 * y + 1;
    assert (2 * y - 1) * (2 * y - 1) == 4 * (y * y) - 4 * y + 1;
    assert 4 * (r * r - x * x) == 4 * (y * y) - 4 * e;
  }

  lemma {:induction false} SquareMonotone(a: nat, b: nat)
    ensures a <= b <==> a * a <= b * b
  {
    if a <= b {
      MulLe(a, b, a);
      MulLe(a, b, b);
    } else {
      MulLe(b + 1, a, b);
      MulLe(b + 1, a, a);
      assert (b + 1) * a == b * a + a;
    }
  }

  /** A height never exceeds the radius, and shrinks as x grows. */
  lemma {:induction false} HeightsShrink(r: nat, x: nat, y: nat, x': nat, y': nat)
    requires Height(r, x, y) && Height(r, x', y') && x <= x'
    ensures y' <= y <= r
  {
    SquareMonotone(x, x');
    assert 4 * (r * r) == 2 * r * (2 * r);
    if y' > y {
      SquareMonotone(2 * y + 1, 2 * y' - 1);
    }
    if y > r {
      SquareMonotone(2 * r, 2 * y - 1);
    }
  }

  lemma DifferenceOfSquares(a: int, b: int)
    ensures (a - b) * (a + b) == a * a - b * b
  {}

  /** One step to the right lowers the height by at most one while the octant lasts. */
  lemma {:induction false} HeightDropsByOne(r: nat, x: nat, y: nat, y': nat)
    requires InOctant(r, x, y) && InOctant(r, x + 1, y')
    ensures y - 1 <= y' <= y
  {
    HeightsShrink(r, x, y, x + 1, y');
    HeightByExcess(r, x, y);
    HeightByExcess(r, x + 1, y');
    ExcessRight(r, x, y);
    if y' < y - 1 {
      MulLe(2, y - y', y + y');
      DifferenceOfSquares(y, y');
    }
  }

  lemma {:induction false} HeightUnique(r: nat, x: nat, y: nat, y': nat)
    requires Height(r, x, y) && Height(r, x, y')
    ensures y == y'
  {
    HeightsShrink(r, x, y, x, y');
    HeightsShrink(r, x, y', x, y);
  }

  /** Every column under the circle has a height. */
  lemma {:induction false} HeightExists(r: nat, x: nat, top: nat) returns (y: nat)
    requires x <= r && 4 * (r * r - x * x) < (2 * top + 1) * (2 * top + 1)
    ensures Height(r, x, y)
    decreases top
  {
    if top == 0 || (2 * top - 1) * (2 * top - 1) < 4 * (r * r - x * x) {
      y := top;
    } else {
      assert (2 * top - 1) * (2 * top - 1) == 4 * (top * top - top) + 1;
      y := HeightExists(r, x, top - 1);
    }
  }

  /** Each plotted point lies less than half a pixel from the true circle. */
  lemma {:induction false} HalfPixel(r: nat, x: nat, y: nat)
    requires r >= 1 && InOctant(r, x, y)
    ensures (2 * r - 1) * (2 * r - 1) < 4 * (x * x + y * y) < (2 * r + 1) * (2 * r + 1)
  {
    HeightByExcess(r, x, y);
    HeightsShrink(r, x, y, x, y);
    var e := Excess(r, x, y);
    assert 4 * (x * x + y * y) == 4 * (r * r) + 4 * e;
    assert (2 * r - 1) * (2 * r - 1) == 4 * (r * r) - 4 * r + 1;
    assert (2 * r + 1) * (2 * r + 1) == 4 * (r * r) + 4 * r + 1;
    assert y == r ==> e == x * x;
  }

  // ---------------------------------------------------------------------------------------------
  // The loop
  // ---------------------------------------------------------------------------------------------

  /**
   * The state of the loop at x: no height further right exceeds y, and y is the height here as long as the
   * octant lasts. Below the radius y can only be once x*x has reached it.
   */
  ghost predicate Tracks(r: nat, x: nat, y: int) {
    && -1 <= y <= r && (y == -1 ==> r == 0 && x == 1)
    && (y >= 0 ==> Excess(r, x, y) + y >= 0)
    && (0 <= x <= y ==> y == 0 || Excess(r, x, y) <= y - 1)
    && (y < r ==> x * x >= r)
    && (y == r && x > 0 ==> x * x < r)
  }

  lemma {:induction false} TracksStart(r: nat)
    ensures Tracks(r, 0, r) && Decision(r, 0, r) == 3 - 2 * r
  {
    assert Excess(r, 0, r) == 0;
    DecisionByExcess(r, 0, r);
  }

  lemma {:induction false} TracksHeight(r: nat, x: nat, y: nat)
    requires Tracks(r, x, y) && x <= y
    ensures InOctant(r, x, y) && y <= r
  {
    HeightByExcess(r, x, y);
  }

  /** The octant does not end at the full height. */
  lemma {:induction false} TracksEnd(r: nat, x: nat, y: int)
    requires Tracks(r, x, y) && y < x
    ensures y < r
  {
    SquareMonotone(1, x);
    MulLe(1, x, x);
  }

  lemma {:induction false} TracksDown(r: nat, x: nat, y: nat)
    requires Tracks(r, x, y) && x <= y && Decision(r, x, y) > 0
    ensures Tracks(r, x + 1, y - 1)
    ensures Decision(r, x + 1, y - 1) == Decision(r, x, y) + 4 * (x - y) + 10
    ensures (x + 1) * (x + 1) >= r
  {
    DecisionByExcess(r, x, y);
    DecisionByExcess(r, x + 1, y - 1);
    ExcessRight(r, x, y);
    ExcessDown(r, x + 1, y);
    FirstDropLate(r, x, y);
  }

  lemma {:induction false} TracksRight(r: nat, x: nat, y: nat)
    requires Tracks(r, x, y) && x <= y && Decision(r, x, y) <= 0
    ensures Tracks(r, x + 1, y)
    ensures Decision(r, x + 1, y) == Decision(r, x, y) + 4 * x + 6
  {
    DecisionByExcess(r, x, y);
    DecisionByExcess(r, x + 1, y);
    ExcessRight(r, x, y);
    assert (x + 1) * (x + 1) == x * x + 2 * x + 1;
  }

  /** At the full height the decision turns positive exactly when the next square reaches the radius. */
  lemma {:induction false} FirstDropLate(r: nat, x: nat, y: nat)
    requires Tracks(r, x, y) && x <= y && Decision(r, x, y) > 0
    ensures (x + 1) * (x + 1) >= r
  {
    assert (x + 1) * (x + 1) == x * x + 2 * x + 1;
    if y == r {
      DecisionByExcess(r, x, r);
      assert Excess(r, x, r) == x * x;
    }
  }

  /** Once y has fallen below x the octant is over for good. */
  lemma {:induction false} OctantOver(r: nat, x: nat, y: int, x': nat, y': nat)
    requires Tracks(r, x, y) && y < x <= x'
    ensures !InOctant(r, x', y')
  {
    HeightByExcess(r, x', y');
    SquareMonotone(x, x');
    if x' <= y' {
      assert Excess(r, x', y') == x' * x' + y' * y' - r * r;
      if y >= 0 {
        BelowNextHeight(y, y');
        assert Excess(r, x, y) == x * x + y * y - r * r;
      } else {
        BelowNextHeight(0, y');
      }
    }
  }

  lemma {:induction false} BelowNextHeight(y: nat, y': nat)
    requires y < y'
    ensures y' * y' - y * y - y >= y'
  {
    MulLe(y, y' - 1, y');
    MulLe(y + 1, y', y);
    assert (y' - 1) * y' == y' * y' - y' && (y + 1) * y == y * y + y;
  }

  // ---------------------------------------------------------------------------------------------
  // 32-bit arithmetic
  // ---------------------------------------------------------------------------------------------

  const I32_LIMIT: int := 0x8000_0000

  predicate FitsI32(v: int) { -I32_LIMIT <= v < I32_LIMIT }

  /** `radius as i32`. */
  function AsI32(u: nat): int { if u < I32_LIMIT then u else u - 2 * I32_LIMIT }

  /**
   * The radii for which no i32 operation of `draw_circle` overflows: up to 2^29 and a bit, or so close to
   * 2^32 that the signed radius is a small negative number and nothing is drawn.
   */
  predicate RadiusFits(radius: nat) { radius <= 536894082 || radius >= 3221225474 }

  /** The operations of one round of the loop, each of which has to fit. */
  predicate RoundFits(x: int, y: int, d: int) {
    if d > 0 then
      && FitsI32(x - y) && FitsI32(4 * (x - y)) && FitsI32(4 * (x - y) + 10) && FitsI32(d + (4 * (x - y) + 10))
      && FitsI32(y - 1) && FitsI32(x + 1)
    else
      FitsI32(4 * x) && FitsI32(4 * x + 6) && FitsI32(d + (4 * x + 6)) && FitsI32(x + 1)
  }

  predicate StartFits(y: int) { FitsI32(2 * y) && FitsI32(3 - 2 * y) }

  lemma {:induction false} DecisionBounds(r: nat, x: nat, y: nat)
    requires Tracks(r, x, y) && x <= y
    ensures 4 * (x - y) + 3 <= Decision(r, x, y) <= 4 * x + 3
    ensures y == r ==> Decision(r, x, y) >= 3 - 2 * r
  {
    DecisionByExcess(r, x, y);
    assert y == r ==> Excess(r, x, y) == x * x;
  }

  /** With a radius in the lower range y is never far from x once (x+1)^2 has reached the radius. */
  lemma {:induction false} NearEnough(r: nat, x: nat, y: nat)
    requires r <= 536894082 && y <= r && (x + 1) * (x + 1) >= r
    ensures y - x <= 0x2000_0000
  {
    if x < 23170 {
      SquareMonotone(x + 1, 23170);
    }
  }

  lemma BoundedRoundFits(r: nat, x: nat, y: nat, d: int)
    requires r <= 536894082 && x <= y <= r && x < 400_000_000 && 4 * (x - y) + 3 <= d <= 4 * x + 3
    requires d > 0 || y < r ==> y - x <= 0x2000_0000
    requires y == r ==> d >= 3 - 2 * r
    ensures RoundFits(x, y, d)
  {}

  /** With a radius in the lower range every round fits. */
  lemma {:induction false} RoundsFit(r: nat, x: nat, y: nat)
    requires r <= 536894082 && Tracks(r, x, y) && x <= y
    ensures RoundFits(x, y, Decision(r, x, y))
  {
    DecisionBounds(r, x, y);
    if Decision(r, x, y) > 0 || y < r {
      SquareReached(r, x, y);
      NearEnough(r, x, y);
    }
    OctantNarrow(r, x, y);
    BoundedRoundFits(r, x, y, Decision(r, x, y));
  }

  /** The octant ends well below the radius. */
  lemma {:induction false} OctantNarrow(r: nat, x: nat, y: nat)
    requires r <= 536894082 && Tracks(r, x, y) && x <= y
    ensures x < 400_000_000
  {
    assert x * x + y * y <= r * r + r;
    SquareMonotone(400_000_000, x);
    SquareMonotone(x, y);
    SquareMonotone(r, 536894082);
  }

  lemma {:induction false} SquareReached(r: nat, x: nat, y: nat)
    requires Tracks(r, x, y) && x <= y && (Decision(r, x, y) > 0 || y < r)
    ensures (x + 1) * (x + 1) >= r
  {
    if y < r {
      assert (x + 1) * (x + 1) == x * x + 2 * x + 1;
    } else {
      FirstDropLate(r, x, y);
    }
  }

  /** With a larger one the first round that lowers y does not. */
  lemma {:induction false} DropOverflows(r: nat, x: nat)
    requires 536894082 < r < 0x4000_0000 && Tracks(r, x, r) && x <= r && Decision(r, x, r) > 0
    ensures !RoundFits(x, r, Decision(r, x, r))
  {
    if x >= 23171 {
      MulLe(23171, x, x - 1);
      MulLe(23170, x - 1, 23171);
      assert x * (x - 1) == x * x - x;
    }
  }
}
