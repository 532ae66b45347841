/** Layer 2: the strategies and the price each of them suggests. */
module Strategy {
  import opened Wrappers
  import opened Money

  datatype StrategyType = StrongAnchor | Boulware | TitForTat | Ultimatum | Hardball | DeadlinePressure | WalkAway

  /** deadlineCurve is the value of the exponential deadline curve at this round: some fraction. */
  datatype Context = Context(
    round: nat,
    myLast: Option<real>,
    opponentLast: Option<real>,
    reservation: real,
    target: real,
    flexibility: real,
    sinceConcession: nat,
    isBuyer: bool,
    deadlineCurve: real)

  datatype Recommendation = Recommendation(strategy: StrategyType, price: real)

  const MAX_ROUNDS: nat := 20

  function TimeRemaining(round: nat): real {
    Max(0.0, (MAX_ROUNDS - round) as real / MAX_ROUNDS as real)
  }

  function Power3(x: real): real { x * x * x }

  function BoulwareCurve(round: nat): real {
    1.0 - Power3(1.0 - round as real / MAX_ROUNDS as real)
  }

  /** `my_last_price or target_price` */
  function Anchor(c: Context): real {
    if c.myLast.Some? && c.myLast.value != 0.0 then c.myLast.value else c.target
  }

  function AtLeastACent(x: real): real {
    Max(x, 0.01)
  }

  // ----- The strategies ----------------------------------------------------------------------------

  function StrongAnchorPrice(c: Context): real {
    AtLeastACent(RoundCent(c.target * (if c.isBuyer then 0.95 else 1.10)))
  }

  /** The opening price moved by a fraction of the distance between target and reservation. */
  function AlongCurve(c: Context, fraction: real): real {
    var step := Step(Abs(c.reservation - c.target), fraction);
    AtLeastACent(RoundCent(if c.isBuyer then c.target + step else c.target - step))
  }

  function Step(range: real, fraction: real): real {
    range * fraction
  }

  function WithinReservation(c: Context, price: real): real {
    AtLeastACent(if c.isBuyer then Min(price, c.reservation) else Max(price, c.reservation))
  }

  function Concession(c: Context, modifier: real): real {
    var mine := Anchor(c);
    var raw := if c.opponentLast.None? || mine <= 0.0 then 0.02
               else RoundTenThousandth(Abs(c.opponentLast.value - mine) / mine * modifier);
    Max(Min(raw, 0.15), 0.005)
  }

  function TitForTatPrice(c: Context, modifier: real): real {
    WithinReservation(c, RoundCent(Moved(Anchor(c), Concession(c, modifier), c.isBuyer)))
  }

  function Moved(price: real, step: real, up: bool): real {
    price * (if up then 1.0 + step else 1.0 - step)
  }

  function UltimatumPrice(c: Context): real {
    var mine := Anchor(c);
    WithinReservation(c, RoundCent(if c.opponentLast.Some? then (mine + c.opponentLast.value) / 2.0 else mine))
  }

  function HardballPrice(c: Context): real {
    WithinReservation(c, RoundCent(Moved(Anchor(c), 0.01, c.isBuyer)))
  }

  function Select(c: Context): StrategyType {
    if c.round == 0 || (c.round == 1 && c.myLast.None?) then StrongAnchor
    else if !c.isBuyer && c.opponentLast.Some? && c.opponentLast.value < c.reservation then WalkAway
    else if MAX_ROUNDS - c.round <= 2 then Ultimatum
    else if c.flexibility < 0.15 && c.sinceConcession >= 2 then Hardball
    else if TimeRemaining(c.round) < 0.25 then DeadlinePressure
    else if c.flexibility > 0.7 then TitForTat
    else Boulware
  }

  function PriceOf(c: Context, s: StrategyType): real {
    match s
    case StrongAnchor => StrongAnchorPrice(c)
    case WalkAway => c.reservation
    case Ultimatum => UltimatumPrice(c)
    case Hardball => HardballPrice(c)
    case DeadlinePressure => AlongCurve(c, c.deadlineCurve)
    case TitForTat => TitForTatPrice(c, 0.85)
    case Boulware => AlongCurve(c, BoulwareCurve(c.round))
  }

  function SelectStrategy(c: Context): Recommendation {
    Recommendation(Select(c), PriceOf(c, Select(c)))
  }

  // ----- The curves ----------------------------------------------------------------------------------

  /** The concession fraction stays a fraction and only grows. */
  lemma BoulwareCurveRange(n: nat, m: nat)
    requires n <= m <= MAX_ROUNDS
    ensures 0.0 <= BoulwareCurve(n) <= BoulwareCurve(m) <= 1.0
  {
    var x, y := 1.0 - n as real / 20.0, 1.0 - m as real / 20.0;
    assert 0.0 <= y <= x <= 1.0;
    CubeMonotone(0.0, y);
    CubeMonotone(y, x);
    CubeMonotone(x, 1.0);
  }

  /** Against its description the curve concedes fast first and slowly later: each round's step is smaller than the one before. */
  lemma BoulwareDecelerates(n: nat)
    requires 0 < n < MAX_ROUNDS
    ensures 0.0 < BoulwareCurve(n + 1) - BoulwareCurve(n) < BoulwareCurve(n) - BoulwareCurve(n - 1)
  {
    var y := 1.0 - n as real / 20.0;
    assert 1.0 - (n + 1) as real / 20.0 == y - 0.05;
    assert 1.0 - (n - 1) as real / 20.0 == y + 0.05;
    CubeSteps(y);
  }

  lemma CubeSteps(y: real)
    requires y >= 0.05
    ensures 0.0 < Power3(y) - Power3(y - 0.05) < Power3(y + 0.05) - Power3(y)
  {
    var s := y * y;
    assert Power3(y + 0.05) == Power3(y) + 0.15 * s + 0.0075 * y + 0.000125;
    assert Power3(y - 0.05) == Power3(y) - 0.15 * s + 0.0075 * y - 0.000125;
    assert y * (y - 0.05) >= 0.0;
    assert s == y * (y - 0.05) + 0.05 * y;
  }

  /** With the same thresholds, a later round's curve price is no better for the side that makes it. */
  lemma BoulwareConcedes(c: Context, n: nat, m: nat)
    requires n <= m <= MAX_ROUNDS
    ensures c.isBuyer ==> AlongCurve(c, BoulwareCurve(n)) <= AlongCurve(c, BoulwareCurve(m))
    ensures !c.isBuyer ==> AlongCurve(c, BoulwareCurve(m)) <= AlongCurve(c, BoulwareCurve(n))
  {
    var range := Abs(c.reservation - c.target);
    var f, g := BoulwareCurve(n), BoulwareCurve(m);
    BoulwareCurveRange(n, m);
    Grow(range, range, f, g);
    assert Step(range, f) <= Step(range, g);
    RoundCentMonotone(c.target + Step(range, f), c.target + Step(range, g));
    RoundCentMonotone(c.target - Step(range, g), c.target - Step(range, f));
  }

  /**
   A tit-for-tat offer moves from the side's own last price by half a percent to fifteen percent,
   up to rounding, whatever the opponent does, unless the reservation stops it.
   */
  lemma TitForTatMoves(c: Context, modifier: real)
    requires c.reservation >= 0.01 && Anchor(c) > 0.0
    ensures var mine, price := Anchor(c), TitForTatPrice(c, modifier);
            if c.isBuyer
            then price <= c.reservation && (price < c.reservation ==> 1.005 * mine - 0.005 <= price)
                 && price <= Max(1.15 * mine + 0.005, 0.01)
            else price >= c.reservation && (price > c.reservation ==> price <= 0.995 * mine + 0.005)
                 && price >= 0.85 * mine - 0.005
  {
    ConcessionRange(c, modifier);
    var mine, step := Anchor(c), Concession(c, modifier);
    MoveRange(mine, step);
    RoundCentNear(Moved(mine, step, c.isBuyer));
  }

  lemma ConcessionRange(c: Context, modifier: real)
    ensures 0.005 <= Concession(c, modifier) <= 0.15
  {
  }

  lemma MoveRange(mine: real, step: real)
    requires mine > 0.0 && 0.005 <= step <= 0.15
    ensures 1.005 * mine <= Moved(mine, step, true) <= 1.15 * mine
    ensures 0.85 * mine <= Moved(mine, step, false) <= 0.995 * mine
  {
    Between(mine, 0.005, step, 0.15);
    Spread(mine, step);
  }

  lemma Between(k: real, low: real, x: real, high: real)
    requires k >= 0.0 && low <= x <= high
    ensures k * low <= k * x <= k * high
  {
    Scaled(k, low, x);
    Scaled(k, x, high);
  }

  lemma Spread(k: real, x: real)
    ensures k * (1.0 + x) == k + k * x && k * (1.0 - x) == k - k * x
  {
  }

  lemma CubeMonotone(x: real, y: real)
    requires 0.0 <= x <= y
    ensures Power3(x) <= Power3(y)
  {
    Grow(x, y, x, y);
    Grow(x * x, y * y, x, y);
  }

  lemma Grow(a: real, b: real, x: real, y: real)
    requires 0.0 <= a <= b && 0.0 <= x <= y
    ensures 0.0 <= a * x <= b * y
  {
    assert (b - a) * y >= 0.0 && a * (y - x) >= 0.0 && a * x >= 0.0;
    assert b * y - a * x == (b - a) * y + a * (y - x);
  }

  // ----- How low a seller can be advised to go ---------------------------------------------------------

  ghost predicate ValidContext(c: Context) {
    && IsCents(c.reservation) && IsCents(c.target) && c.reservation >= 0.01 && c.target >= 0.01
    && c.round <= MAX_ROUNDS && 0.0 <= c.deadlineCurve <= 1.0
  }

  lemma FractionOf(range: real, fraction: real)
    requires range >= 0.0 && 0.0 <= fraction <= 1.0
    ensures 0.0 <= Step(range, fraction) <= range
  {
    Grow(range, range, fraction, 1.0);
  }

  /** Both curves move a seller from the target downwards, but never past an orderly reservation. */
  lemma AlongCurveForSeller(c: Context, fraction: real)
    requires ValidContext(c) && !c.isBuyer && 0.0 <= fraction <= 1.0
    ensures AlongCurve(c, fraction) >= c.reservation <==> c.reservation <= c.target
  {
    var range := Abs(c.reservation - c.target);
    FractionOf(range, fraction);
    RoundCentBounds(c.target - Step(range, fraction), c.target);
    RoundCentBounds(c.target - Step(range, fraction), c.reservation);
  }

  /**
   The advised price undercuts a seller's reservation exactly when the reservation lies above the
   target and the advice comes from a curve, or from an opening anchor that falls short of it.
   */
  lemma SellerUndercutExact(c: Context)
    requires ValidContext(c) && !c.isBuyer
    ensures var r := SelectStrategy(c);
            r.price < c.reservation <==>
              && c.reservation > c.target
              && (r.strategy == Boulware || r.strategy == DeadlinePressure
                  || (r.strategy == StrongAnchor && RoundCent(c.target * 1.10) < c.reservation))
  {
    match Select(c)
    case StrongAnchor => RoundCentBounds(c.target * 1.10, c.target);
    case Boulware => BoulwareCurveRange(c.round, c.round); AlongCurveForSeller(c, BoulwareCurve(c.round));
    case DeadlinePressure => AlongCurveForSeller(c, c.deadlineCurve);
    case _ =>
  }

  /** A seller's third-turn situation in which the default strategy is chosen. */
  function DefaultSituation(reservation: real, target: real): Context {
    Context(3, Some(target), None, reservation, target, 0.5, 0, false, 0.0)
  }

  ghost predicate NeverUndercut(reservation: real, target: real) {
    forall c: Context ::
      ValidContext(c) && !c.isBuyer && c.reservation == reservation && c.target == target
      ==> SelectStrategy(c).price >= reservation
  }

  /** The advice respects the reservation in every situation if and only if the reservation is at most the target. */
  lemma SellerNeverUndercutIff(reservation: real, target: real)
    requires IsCents(reservation) && IsCents(target) && reservation >= 0.01 && target >= 0.01
    ensures NeverUndercut(reservation, target) <==> reservation <= target
  {
    forall c: Context | ValidContext(c) && !c.isBuyer && c.reservation == reservation && c.target == target
      ensures reservation <= target ==> SelectStrategy(c).price >= reservation
    {
      SellerUndercutExact(c);
    }
    var c := DefaultSituation(reservation, target);
    SellerUndercutExact(c);
    assert Select(c) == Boulware;
    assert ValidContext(c);
  }

  // ----- How high a buyer can be advised to go --------------------------------------------------------

  /**
   A buyer's advice stays within target + (target - reservation); the three strategies that know
   about the reservation keep it, the curves start at the target and only rise.
   */
  lemma BuyerAdviceRange(c: Context)
    requires ValidContext(c) && c.isBuyer && c.reservation <= c.target
    ensures var r := SelectStrategy(c);
            match r.strategy
            case StrongAnchor => r.price <= c.target
            case Boulware => c.target <= r.price <= 2.0 * c.target - c.reservation
            case DeadlinePressure => c.target <= r.price <= 2.0 * c.target - c.reservation
            case WalkAway => false
            case _ => r.price <= c.reservation
  {
    var range := c.target - c.reservation;
    match Select(c)
    case StrongAnchor => RoundCentBounds(c.target * 0.95, c.target);
    case Boulware =>
      BoulwareCurveRange(c.round, c.round);
      BuyerCurve(c, BoulwareCurve(c.round));
    case DeadlinePressure => BuyerCurve(c, c.deadlineCurve);
    case _ =>
  }

  lemma BuyerCurve(c: Context, fraction: real)
    requires ValidContext(c) && c.isBuyer && c.reservation <= c.target && 0.0 <= fraction <= 1.0
    ensures c.target <= AlongCurve(c, fraction) <= 2.0 * c.target - c.reservation
  {
    var range := Abs(c.reservation - c.target);
    FractionOf(range, fraction);
    var most := 2.0 * c.target - c.reservation;
    var m, n :| Cents(m) == c.target && Cents(n) == c.reservation;
    assert Cents(2 * m - n) == most;
    RoundCentBounds(c.target + Step(range, fraction), c.target);
    RoundCentBounds(c.target + Step(range, fraction), most);
  }
}
