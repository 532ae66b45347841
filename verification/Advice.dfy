/**
 The strategist and the valuations in figures: which strategy is chosen in which round, which price
 each of them names, and the thresholds of every risk appetite. Nothing here is stated through the
 helpers of Strategy and Valuation; `RoundCent` is characterised in Money.
 */
module Advice {
  import opened Wrappers
  import opened Offers
  import opened Money
  import opened Strategy
  import opened Valuation

  // ----- Which strategy ------------------------------------------------------------------------------

  /** The first offer of a session, or a side's first one in the second round. */
  ghost predicate Opens(c: Context) {
    c.round == 0 || (c.round == 1 && c.myLast == None)
  }

  /** A bid below what the seller accepts. No ask is too high for a buyer. */
  ghost predicate TooLow(c: Context) {
    !c.isBuyer && exists bid :: c.opponentLast == Some(bid) && bid < c.reservation
  }

  ghost predicate HoldsFirm(c: Context) {
    c.flexibility < 0.15 && c.sinceConcession >= 2
  }

  /** Every strategy is chosen in exactly these situations; the deadline counts in rounds 16 and 17 of 20. */
  lemma SelectExact(c: Context)
    ensures var s := SelectStrategy(c).strategy;
            && (s == StrongAnchor <==> Opens(c))
            && (s == WalkAway <==> !Opens(c) && TooLow(c))
            && (s == Ultimatum <==> c.round >= 18 && !TooLow(c))
            && (s == Hardball <==> !Opens(c) && c.round < 18 && HoldsFirm(c) && !TooLow(c))
            && (s == DeadlinePressure <==> 16 <= c.round < 18 && !HoldsFirm(c) && !TooLow(c))
            && (s == TitForTat <==> !Opens(c) && c.round < 16 && c.flexibility > 0.7 && !TooLow(c))
            && (s == Boulware <==> !Opens(c) && c.round < 16 && c.flexibility <= 0.7 && !HoldsFirm(c) && !TooLow(c))
  {
    assert TooLow(c) <==> !c.isBuyer && c.opponentLast.Some? && c.opponentLast.value < c.reservation;
    assert TimeRemaining(c.round) < 0.25 <==> c.round >= 16;
  }

  // ----- Which price ---------------------------------------------------------------------------------

  /** `mine` is the side's own last price; without one, or after a zero, its target. */
  ghost predicate StartsFrom(c: Context, mine: real) {
    match c.myLast
    case None => mine == c.target
    case Some(last) => mine == if last == 0.0 then c.target else last
  }

  /** The nearest whole cents to `exact`, unless the reservation or the smallest price stops it. */
  ghost predicate NamedWithin(c: Context, price: real, exact: real) {
    exists near ::
      && RoundedTo(exact, near)
      && price == Max(0.01, if c.isBuyer then Min(near, c.reservation) else Max(near, c.reservation))
  }

  /** The nearest whole cents, and at least one. */
  ghost predicate Named(price: real, exact: real) {
    exists near :: RoundedTo(exact, near) && price == Max(0.01, near)
  }

  ghost predicate RoundedTo(exact: real, near: real) {
    IsCents(near) && (Abs(near - exact) < 0.005 || (Abs(near - exact) == 0.005 && Abs(near) > Abs(exact)))
  }

  lemma Rounds(exact: real)
    ensures RoundedTo(exact, RoundCent(exact))
  {
    RoundCentExact(exact, RoundCent(exact));
  }

  /** A buyer opens 5% below its target, a seller 10% above. */
  lemma AnchorPriceExact(c: Context)
    requires Opens(c)
    ensures Named(SelectStrategy(c).price, c.target * (if c.isBuyer then 0.95 else 1.10))
  {
    SelectExact(c);
    Rounds(c.target * (if c.isBuyer then 0.95 else 1.10));
  }

  /** Rejecting names the reservation. */
  lemma WalkAwayPriceExact(c: Context)
    requires TooLow(c) && !Opens(c)
    ensures SelectStrategy(c).price == c.reservation
  {
    SelectExact(c);
  }

  /** The ultimatum meets the opponent halfway, or repeats the own price when there is nobody to meet. */
  lemma UltimatumPriceExact(c: Context, mine: real)
    requires c.round >= 18 && !TooLow(c) && StartsFrom(c, mine)
    ensures match c.opponentLast
            case None => NamedWithin(c, SelectStrategy(c).price, mine)
            case Some(theirs) => NamedWithin(c, SelectStrategy(c).price, (mine + theirs) / 2.0)
  {
    SelectExact(c);
    Rounds(if c.opponentLast.Some? then (mine + c.opponentLast.value) / 2.0 else mine);
  }

  /** Holding firm concedes one percent. */
  lemma HardballPriceExact(c: Context, mine: real)
    requires !Opens(c) && c.round < 18 && HoldsFirm(c) && !TooLow(c) && StartsFrom(c, mine)
    ensures NamedWithin(c, SelectStrategy(c).price, if c.isBuyer then mine * 1.01 else mine * 0.99)
  {
    SelectExact(c);
    Rounds(if c.isBuyer then mine * 1.01 else mine * 0.99);
  }

  /**
   `step` is what tit-for-tat concedes from `mine`: 85% of the gap to the opponent's price, relative to
   `mine`, to the nearest hundredth of a percent, at least 0.5% and at most 15%; 2% with nothing to mirror.
   */
  ghost predicate Mirrors(opponentLast: Option<real>, mine: real, step: real) {
    match opponentLast
    case None => step == 0.02
    case Some(theirs) =>
      if mine <= 0.0 then step == 0.02 else Limited(step, 0.85 * Abs(theirs - mine), mine)
  }

  ghost function TenThousandths(k: int): real {
    k as real / 10000.0
  }

  /** A rounded share of at most 15% and at least 0.5%, by the share itself. */
  lemma RoundedShare(share: real, raw: real, k: int)
    requires raw == RoundTenThousandth(share) && k == HalfUp(share * 10000.0) && share >= 0.0
    ensures share < 0.00505 ==> raw <= 0.005
    ensures share >= 0.14995 ==> raw >= 0.15
    ensures 0.00505 <= share < 0.14995 ==> 0.005 <= raw <= 0.15
    ensures raw == TenThousandths(k) && TenThousandths(2 * k - 1) <= 2.0 * share < TenThousandths(2 * k + 1)
  {
  }

  /** Comparing shares of a positive price is comparing the amounts. */
  lemma Ordered(share: real, limit: real, mine: real, amount: real)
    requires mine > 0.0 && amount == share * mine
    ensures amount < limit * mine <==> share < limit
  {
    var d := limit - share;
    assert limit * mine - amount == d * mine;
    if d > 0.0 { assert d * mine > 0.0; } else { assert -d * mine >= 0.0; }
  }

  lemma ShareOf(gap: real, mine: real) returns (share: real)
    requires mine > 0.0 && gap >= 0.0
    ensures share == gap / mine * 0.85 && share >= 0.0 && share * mine == 0.85 * gap
  {
    var part := gap / mine;
    assert part * mine == gap;
    assert part >= 0.0;
    share := part * 0.85;
    Reassociate(part, mine);
  }

  lemma Reassociate(part: real, mine: real)
    ensures (part * 0.85) * mine == 0.85 * (part * mine)
  {
  }

  /** `step` is `mirrored` as a share of `mine`, to the nearest hundredth of a percent. */
  ghost predicate NearestShare(step: real, mirrored: real, mine: real) {
    exists k: int :: step == TenThousandths(k) && TenThousandths(2 * k - 1) * mine <= 2.0 * mirrored < TenThousandths(2 * k + 1) * mine
  }

  lemma Twice(share: real, mine: real)
    ensures (2.0 * share) * mine == 2.0 * (share * mine)
  {
  }

  lemma NearShare(share: real, mirrored: real, mine: real)
    requires mine > 0.0 && share >= 0.0 && share * mine == mirrored
    ensures NearestShare(RoundTenThousandth(share), mirrored, mine)
  {
    var k := HalfUp(share * 10000.0);
    RoundedShare(share, RoundTenThousandth(share), k);
    Twice(share, mine);
    Ordered(2.0 * share, TenThousandths(2 * k + 1), mine, 2.0 * mirrored);
    Ordered(2.0 * share, TenThousandths(2 * k - 1), mine, 2.0 * mirrored);
  }

  ghost predicate Limited(step: real, mirrored: real, mine: real) {
    if mirrored < 0.00505 * mine then step == 0.005
    else if mirrored >= 0.14995 * mine then step == 0.15
    else NearestShare(step, mirrored, mine)
  }

  lemma Limits(share: real, mirrored: real, mine: real)
    requires mine > 0.0 && share >= 0.0 && mirrored == share * mine
    requires NearestShare(RoundTenThousandth(share), mirrored, mine)
    ensures Limited(Max(Min(RoundTenThousandth(share), 0.15), 0.005), mirrored, mine)
  {
    RoundedShare(share, RoundTenThousandth(share), HalfUp(share * 10000.0));
    Ordered(share, 0.00505, mine, mirrored);
    Ordered(share, 0.14995, mine, mirrored);
  }

  lemma NearLimits(share: real, mirrored: real, mine: real)
    requires mine > 0.0 && share >= 0.0 && mirrored == share * mine
    ensures Limited(Max(Min(RoundTenThousandth(share), 0.15), 0.005), mirrored, mine)
  {
    NearShare(share, mirrored, mine);
    Limits(share, mirrored, mine);
  }

  lemma LimitedShare(gap: real, mine: real)
    requires mine > 0.0 && gap >= 0.0
    ensures Limited(Max(Min(RoundTenThousandth(gap / mine * 0.85), 0.15), 0.005), 0.85 * gap, mine)
  {
    var share := ShareOf(gap, mine);
    NearLimits(share, 0.85 * gap, mine);
  }

  lemma ConcessionExact(c: Context, mine: real)
    requires StartsFrom(c, mine)
    ensures Mirrors(c.opponentLast, mine, Concession(c, 0.85))
  {
    if c.opponentLast.Some? && mine > 0.0 {
      LimitedShare(Abs(c.opponentLast.value - mine), mine);
    }
  }

  lemma TitForTatPriceExact(c: Context, mine: real) returns (step: real, exact: real)
    requires !Opens(c) && c.round < 16 && c.flexibility > 0.7 && !TooLow(c) && StartsFrom(c, mine)
    ensures Mirrors(c.opponentLast, mine, step)
    ensures exact == if c.isBuyer then mine * (1.0 + step) else mine * (1.0 - step)
    ensures NamedWithin(c, SelectStrategy(c).price, exact)
  {
    SelectExact(c);
    ConcessionExact(c, mine);
    step := Concession(c, 0.85);
    exact := Moved(mine, step, c.isBuyer);
    MovedExact(mine, step, c.isBuyer);
    MovedPrice(c, exact);
  }

  lemma MovedExact(mine: real, step: real, up: bool)
    ensures Moved(mine, step, up) == if up then mine * (1.0 + step) else mine * (1.0 - step)
  {
  }

  lemma MovedPrice(c: Context, exact: real)
    requires exact == Moved(Anchor(c), Concession(c, 0.85), c.isBuyer)
    ensures NamedWithin(c, TitForTatPrice(c, 0.85), exact)
  {
    Rounds(exact);
  }

  /** `exact` lies the given share of the way from the target, on the side a concession goes. */
  ghost predicate Conceded(c: Context, fraction: real, exact: real) {
    exact == c.target + (if c.isBuyer then fraction else -fraction) * Abs(c.reservation - c.target)
  }

  lemma CurvePriceExact(c: Context, fraction: real, exact: real)
    requires Conceded(c, fraction, exact)
    ensures Named(AlongCurve(c, fraction), exact)
  {
    Rounds(exact);
    var step := Step(Abs(c.reservation - c.target), fraction);
    Backwards(Abs(c.reservation - c.target), fraction);
    assert exact == if c.isBuyer then c.target + step else c.target - step;
  }

  lemma Backwards(range: real, fraction: real)
    ensures Step(range, fraction) == fraction * range && -Step(range, fraction) == -fraction * range
  {
  }

  lemma DeadlinePriceExact(c: Context, exact: real)
    requires 16 <= c.round < 18 && !HoldsFirm(c) && !TooLow(c) && Conceded(c, c.deadlineCurve, exact)
    ensures Named(SelectStrategy(c).price, exact)
  {
    SelectExact(c);
    CurvePriceExact(c, c.deadlineCurve, exact);
  }

  /** In round n of 20 the default strategy has conceded 1 - ((20 - n) / 20)^3 of the distance. */
  lemma BoulwarePriceExact(c: Context, fraction: real, exact: real)
    requires !Opens(c) && c.round < 16 && c.flexibility <= 0.7 && !HoldsFirm(c) && !TooLow(c)
    requires 8000.0 * (1.0 - fraction) == ((20 - c.round) * (20 - c.round) * (20 - c.round)) as real
    requires Conceded(c, fraction, exact)
    ensures Named(SelectStrategy(c).price, exact)
  {
    SelectExact(c);
    CurveInRounds(c.round);
    CurvePriceExact(c, fraction, exact);
  }

  lemma CurveInRounds(n: nat)
    requires n <= 20
    ensures 8000.0 * (1.0 - BoulwareCurve(n)) == ((20 - n) * (20 - n) * (20 - n)) as real
  {
    var k := 20 - n;
    var y := 1.0 - n as real / 20.0;
    assert 20.0 * y == k as real;
    assert 8000.0 * Power3(y) == (20.0 * y) * (20.0 * y) * (20.0 * y);
    Cubed(k);
  }

  lemma Cubed(k: nat)
    ensures (k as real) * (k as real) * (k as real) == (k * k * k) as real
  {
    assert (k as real) * (k as real) == (k * k) as real;
  }

  // ----- The thresholds of each appetite --------------------------------------------------------------

  /** A buyer's reservation and target as shares of its ceiling; the reservation never passes the ceiling. */
  lemma BuyerFigures(p: Profile)
    requires p.ceiling > 0.0
    ensures ValuationFor(p, Buyer).Ok?
    ensures var v := ValuationFor(p, Buyer).value;
            match p.appetite
            case Low =>
              && v.target == Max(0.01, RoundCent(0.776 * p.ceiling))
              && v.reservation == Min(p.ceiling, Max(0.01, RoundCent(0.76 * p.ceiling)))
            case Medium =>
              && v.target == Max(0.01, RoundCent(0.76 * p.ceiling))
              && v.reservation == Min(p.ceiling, Max(0.01, RoundCent(0.72 * p.ceiling)))
            case High =>
              && v.target == Max(0.01, RoundCent(0.72 * p.ceiling))
              && v.reservation == Min(p.ceiling, Max(0.01, RoundCent(0.64 * p.ceiling)))
  {
    FairShare(p.ceiling, p.appetite);
  }

  lemma FairShare(ceiling: real, appetite: Appetite)
    requires ceiling > 0.0
    ensures var (low, high) := match appetite case Low => (0.76, 0.776) case Medium => (0.72, 0.76) case High => (0.64, 0.72);
            ComputeValuation(ceiling * 0.80, BuyerRisk(appetite), BuyerMargin(appetite))
            == Ok(Valuation(Max(0.01, RoundCent(low * ceiling)), Max(0.01, RoundCent(high * ceiling))))
  {
    match appetite
    case Low => Floored(0.776 * ceiling); Floored(0.76 * ceiling);
    case Medium => Floored(0.76 * ceiling); Floored(0.72 * ceiling);
    case High => Floored(0.72 * ceiling); Floored(0.64 * ceiling);
  }

  lemma Floored(x: real)
    ensures PositiveCents(RoundCent(x)) == Max(0.01, RoundCent(x))
  {
    RoundCentIsCents(x);
    PositiveCentsAreCents(RoundCent(x));
  }

  lemma SameBasis(ceiling: real, floor: real, exact: real)
    requires exact == 0.60 * ceiling * (1.0 + floor / 100.0)
    ensures Markup(ceiling * 0.60, 1.0 + floor / 100.0) == Max(0.01, RoundCent(exact))
  {
    assert (ceiling * 0.60) * (1.0 + floor / 100.0) == exact;
    Floored(exact);
  }

  lemma SellerTarget(ceiling: real, appetite: Appetite)
    ensures Markup(ceiling * 0.60, 1.0 + TargetMargin(appetite))
            == Max(0.01, RoundCent(match appetite case Low => 0.69 * ceiling case Medium => 0.72 * ceiling case High => 0.78 * ceiling))
  {
    match appetite
    case Low => Floored(0.69 * ceiling);
    case Medium => Floored(0.72 * ceiling);
    case High => Floored(0.78 * ceiling);
  }

  /** A seller adds its margin floor to its cost basis, 60% of its own ceiling. */
  lemma SellerReservation(p: Profile, exact: real)
    requires exact == 0.60 * p.ceiling * (1.0 + p.marginFloor / 100.0)
    ensures ValuationFor(p, Seller).Ok?
    ensures ValuationFor(p, Seller).value.reservation == Max(0.01, RoundCent(exact))
  {
    SameBasis(p.ceiling, p.marginFloor, exact);
  }

  lemma SellerTargetFigures(p: Profile)
    ensures ValuationFor(p, Seller).Ok?
    ensures ValuationFor(p, Seller).value.target
            == Max(0.01, RoundCent(match p.appetite
                                   case Low => 0.69 * p.ceiling case Medium => 0.72 * p.ceiling case High => 0.78 * p.ceiling))
  {
    SellerTarget(p.ceiling, p.appetite);
  }
}
