/** `Math.round(part / whole * 100)` on non-negative ratios, in integers.
    JavaScript's Math.round rounds halves upwards, so the percentage is
    floor((200 * part + whole) / (2 * whole)). */
module Rounding {

  /** The whole percentage nearest to 100 * part / whole, halves rounded up. */
  function RoundedPercent(part: nat, whole: nat): (r: nat)
    requires whole > 0
    ensures 2 * whole * r <= 200 * part + whole < 2 * whole * r + 2 * whole
    ensures part <= whole ==> r <= 100
    ensures part == 0 ==> r == 0
    ensures part == whole ==> r == 100
  {
    var a, b := 200 * part + whole, 2 * whole;
    assert a == b * (a / b) + a % b;
    NearestBound(part, whole, a / b);
    a / b
  }

  lemma MulPositive(a: int, b: int)
    requires a > 0 && b > 0
    ensures a * b > 0
  {
  }

  lemma Distribute(c: int, x: int, y: int)
    ensures c * y - c * x == c * (y - x)
  {
  }

  /** Multiplying by a positive factor keeps strict order both ways. */
  lemma ScaleLess(c: int, x: int, y: int)
    requires c > 0
    ensures c * x < c * y <==> x < y
  {
    Distribute(c, x, y);
    if x < y {
      MulPositive(c, y - x);
    } else if x > y {
      MulPositive(c, x - y);
      Distribute(c, y, x);
    }
  }

  lemma NearestBound(part: nat, whole: nat, r: int)
    requires whole > 0
    requires 2 * whole * r <= 200 * part + whole < 2 * whole * r + 2 * whole
    ensures part <= whole ==> r <= 100
    ensures part == 0 ==> r == 0
    ensures part == whole ==> r == 100
    ensures r >= 0
  {
    var c := 2 * whole;
    ScaleLess(c, -1, r);
    if part <= whole {
      ScaleLess(c, r, 101);
    }
    if part == 0 {
      ScaleLess(c, r, 1);
    }
    if part == whole {
      ScaleLess(c, 99, r);
    }
  }

  /** The rounded percentage reaches `k` exactly when 100 * part / whole is at
      least k - 1/2. */
  lemma {:induction false} AtLeast(part: nat, whole: nat, k: int)
    requires whole > 0
    ensures RoundedPercent(part, whole) >= k <==> 200 * part + whole >= 2 * whole * k
  {
    var r, c := RoundedPercent(part, whole), 2 * whole;
    ScaleLess(c, r, k);
    ScaleLess(c, k - 1, r);
    Distribute(c, k - 1, k);
  }

  /** A few values: 7 of 10 is 70 %, 1 of 3 is 33 %, 2 of 3 is 67 %, and an
      exact half (1 of 8, 12.5 %) rounds up. */
  lemma Examples()
    ensures RoundedPercent(7, 10) == 70
    ensures RoundedPercent(1, 3) == 33
    ensures RoundedPercent(2, 3) == 67
    ensures RoundedPercent(1, 8) == 13
  {
  }
}
