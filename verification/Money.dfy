/** Prices are decimals; the only rounding is Python's quantize with ROUND_HALF_UP: ties away from zero. */
module Money {

  function Abs(x: real): real {
    if x < 0.0 then -x else x
  }

  function Min(x: real, y: real): real {
    if y < x then y else x
  }

  function Max(x: real, y: real): real {
    if y > x then y else x
  }

  function HalfUp(x: real): int {
    if x >= 0.0 then (x + 0.5).Floor else -(0.5 - x).Floor
  }

  /** quantize(Decimal("0.01"), ROUND_HALF_UP) */
  function RoundCent(x: real): real {
    HalfUp(x * 100.0) as real / 100.0
  }

  /** quantize(Decimal("0.0001"), ROUND_HALF_UP) */
  function RoundTenThousandth(x: real): real {
    HalfUp(x * 10000.0) as real / 10000.0
  }

  ghost predicate IsCents(x: real) {
    exists n: int :: Cents(n) == x
  }

  ghost function Cents(n: int): real {
    n as real / 100.0
  }

  lemma RoundCentIsCents(x: real)
    ensures IsCents(RoundCent(x))
  {
    assert RoundCent(x) == Cents(HalfUp(x * 100.0));
  }

  /** The rounded value is the one whole number of cents nearest to x, the one farther from zero on a tie. */
  lemma RoundCentExact(x: real, r: real)
    ensures r == RoundCent(x) <==>
              IsCents(r) && (Abs(r - x) < 0.005 || (Abs(r - x) == 0.005 && Abs(r) > Abs(x)))
  {
    RoundCentIsCents(x);
    if IsCents(r) {
      var n :| Cents(n) == r;
      NearestExact(x * 100.0, n);
    }
  }

  lemma NearestExact(y: real, n: int)
    ensures n == HalfUp(y) <==>
              Abs(n as real - y) < 0.5 || (Abs(n as real - y) == 0.5 && Abs(n as real) > Abs(y))
  {
  }

  lemma HalfUpMonotone(x: real, y: real)
    requires x <= y
    ensures HalfUp(x) <= HalfUp(y)
  {
    if x < 0.0 <= y {
      assert (0.5 - x).Floor >= 0 && (y + 0.5).Floor >= 0;
    }
  }

  lemma RoundCentMonotone(x: real, y: real)
    requires x <= y
    ensures RoundCent(x) <= RoundCent(y)
  {
    HalfUpMonotone(x * 100.0, y * 100.0);
  }

  lemma RoundCentFixed(x: real)
    requires IsCents(x)
    ensures RoundCent(x) == x
  {
    RoundCentExact(x, x);
  }

  /** Rounding cannot cross a whole number of cents. */
  lemma RoundCentBounds(x: real, bound: real)
    requires IsCents(bound)
    ensures x >= bound ==> RoundCent(x) >= bound
    ensures x <= bound ==> RoundCent(x) <= bound
  {
    RoundCentFixed(bound);
    if x >= bound { RoundCentMonotone(bound, x); }
    if x <= bound { RoundCentMonotone(x, bound); }
  }

  lemma RoundCentNear(x: real)
    ensures x - 0.005 <= RoundCent(x) <= x + 0.005
  {
    RoundCentExact(x, RoundCent(x));
  }

  lemma Scaled(k: real, x: real, y: real)
    requires k >= 0.0 && x <= y
    ensures k * x <= k * y
  {
    var d := y - x;
    assert k * d >= 0.0;
    assert k * y == k * (x + d) == k * x + k * d;
  }
}
