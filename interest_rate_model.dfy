/** The kinked interest-rate model contract (contracts/interest_rate_model).
    Rates and utilization are fixed-point integers at scale 1e7 (1e7 = 100%).
    The borrow rate is piecewise linear in utilization, with a steeper second
    segment beyond the optimal utilization ("the kink"); the supply rate is the
    borrow rate scaled by utilization, with no reserve factor. */
module RateModel {
  import opened Wrappers
  import opened FixedPoint

  const SCALE: int := 10_000_000
  const DEFAULT_OPTIMAL_UTILIZATION: int := 8_000_000

  /** The four parameter slots of the contract's storage. */
  datatype RateParams = RateParams(baseRate: int, slope1: int, slope2: int, optimalUtilization: int)

  /** What the getters read before `initialize`: every slot's `unwrap_or` default. */
  const DEFAULT_PARAMS: RateParams := RateParams(0, 0, 0, DEFAULT_OPTIMAL_UTILIZATION)

  /** The kink lies strictly inside (0, 100%): `initialize` enforces it and the
      default satisfies it, so neither division in the curve is by zero. */
  predicate ValidCurve(p: RateParams) {
    0 < p.optimalUtilization < SCALE
  }

  datatype RateError = AlreadyInitialized | InvalidOptimalUtilization

  /** `get_borrow_rate` on given parameters. */
  function BorrowRate(p: RateParams, utilization: int): int
    requires ValidCurve(p)
  {
    if utilization <= p.optimalUtilization then
      p.baseRate + Quot(utilization * p.slope1, p.optimalUtilization)
    else
      AboveKink(p, utilization)
  }

  /** How far past the kink the utilization is, as a fraction (scale 1e7) of the
      distance from the kink to 100%. */
  function ExcessUtilization(p: RateParams, utilization: int): int
    requires ValidCurve(p)
  {
    Quot((utilization - p.optimalUtilization) * SCALE, SCALE - p.optimalUtilization)
  }

  /** The second segment of the curve. */
  function AboveKink(p: RateParams, utilization: int): int
    requires ValidCurve(p)
  {
    p.baseRate + p.slope1 + Quot(ExcessUtilization(p, utilization) * p.slope2, SCALE)
  }

  /** `get_supply_rate` on given parameters. */
  function SupplyRate(p: RateParams, utilization: int): int
    requires ValidCurve(p)
  {
    Quot(BorrowRate(p, utilization) * utilization, SCALE)
  }

  /** The contract's storage: the parameter slots, absent until `initialize`. */
  class InterestRateModel {
    var params: Option<RateParams>

    ghost predicate Valid()
      reads this
    {
      ValidCurve(Params())
    }

    /** The parameters every getter sees, defaults included. */
    function Params(): RateParams
      reads this
    {
      params.GetOr(DEFAULT_PARAMS)
    }

    /** A freshly deployed contract: no slot is set. */
    constructor ()
      ensures Valid() && params == None
    {
      params := None;
    }

    /** `initialize`: fails if already initialized (the base-rate slot is
        present) or if the optimal utilization is not strictly between 0 and
        100%; otherwise stores the four parameters. */
    method Initialize(baseRate: int, slope1: int, slope2: int, optimalUtilization: int)
      returns (r: Outcome<RateError>)
      requires Valid()
      modifies this
      ensures Valid()
      ensures old(params).Some? ==> r == Fail(AlreadyInitialized)
      ensures old(params).None? && !(0 < optimalUtilization < SCALE) ==> r == Fail(InvalidOptimalUtilization)
      ensures r.Fail? ==> params == old(params)
      ensures r.Pass? <==> old(params).None? && 0 < optimalUtilization < SCALE
      ensures r.Pass? ==> params == Some(RateParams(baseRate, slope1, slope2, optimalUtilization))
    {
      if params.Some? {
        return Fail(AlreadyInitialized);
      }
      if optimalUtilization <= 0 || optimalUtilization >= SCALE {
        return Fail(InvalidOptimalUtilization);
      }
      params := Some(RateParams(baseRate, slope1, slope2, optimalUtilization));
      r := Pass;
    }

    /** `get_borrow_rate`: zero for every utilization before `initialize`. */
    function GetBorrowRate(utilization: int): (r: int)
      reads this
      requires Valid()
      ensures params.None? ==> r == 0
    {
      DefaultRatesAreZero(utilization);
      BorrowRate(Params(), utilization)
    }

    /** `get_supply_rate`: zero for every utilization before `initialize`. */
    function GetSupplyRate(utilization: int): (r: int)
      reads this
      requires Valid()
      ensures params.None? ==> r == 0
    {
      DefaultRatesAreZero(utilization);
      SupplyRate(Params(), utilization)
    }

    /** The parameter getters: each reads its slot, or its `unwrap_or`
        default (0, and 80% for the optimal utilization) before `initialize`. */
    function GetBaseRate(): (r: int)
      reads this
      ensures params.None? ==> r == 0
      ensures params.Some? ==> r == params.value.baseRate
    {
      Params().baseRate
    }

    function GetSlope1(): (r: int)
      reads this
      ensures params.None? ==> r == 0
      ensures params.Some? ==> r == params.value.slope1
    {
      Params().slope1
    }

    function GetSlope2(): (r: int)
      reads this
      ensures params.None? ==> r == 0
      ensures params.Some? ==> r == params.value.slope2
    {
      Params().slope2
    }

    function GetOptimalUtilization(): (r: int)
      reads this
      ensures params.None? ==> r == 8_000_000
      ensures params.Some? ==> r == params.value.optimalUtilization
      ensures Valid() ==> 0 < r < SCALE
    {
      Params().optimalUtilization
    }
  }

  /** With the default parameters (all slopes and the base zero) both rates
      are zero at every utilization, negative or beyond 100% included. */
  lemma DefaultRatesAreZero(utilization: int)
    ensures ValidCurve(DEFAULT_PARAMS)
    ensures BorrowRate(DEFAULT_PARAMS, utilization) == 0
    ensures SupplyRate(DEFAULT_PARAMS, utilization) == 0
  {
  }

  /** The curve starts at the base rate at zero utilization. */
  lemma BorrowRateAtZero(p: RateParams)
    requires ValidCurve(p)
    ensures BorrowRate(p, 0) == p.baseRate
  {
  }

  /** Continuity at the kink: at the optimal utilization the first segment
      reaches `base + slope1`, exactly where the second segment starts. */
  lemma BorrowRateAtKink(p: RateParams)
    requires ValidCurve(p)
    ensures BorrowRate(p, p.optimalUtilization) == p.baseRate + p.slope1
    ensures AboveKink(p, p.optimalUtilization) == p.baseRate + p.slope1
  {
    assert p.optimalUtilization * p.slope1 == p.slope1 * p.optimalUtilization;
    QuotOfMultiple(p.slope1, p.optimalUtilization);
    assert ExcessUtilization(p, p.optimalUtilization) == 0;
  }

  /** At 100% utilization the excess is exactly one whole unit, so the rate is
      `base + slope1 + slope2`. */
  lemma BorrowRateAtFullUtilization(p: RateParams)
    requires ValidCurve(p)
    ensures BorrowRate(p, SCALE) == p.baseRate + p.slope1 + p.slope2
  {
    var gap := SCALE - p.optimalUtilization;
    assert (SCALE - p.optimalUtilization) * SCALE == SCALE * gap;
    QuotOfMultiple(SCALE, gap);
    assert ExcessUtilization(p, SCALE) == SCALE;
    assert SCALE * p.slope2 == p.slope2 * SCALE;
    QuotOfMultiple(p.slope2, SCALE);
  }

  /** Beyond the kink the excess fraction is non-negative. */
  lemma ExcessNonNegative(p: RateParams, utilization: int)
    requires ValidCurve(p) && utilization >= p.optimalUtilization
    ensures ExcessUtilization(p, utilization) >= 0
  {
    QuotOfNonNegative((utilization - p.optimalUtilization) * SCALE, SCALE - p.optimalUtilization);
  }

  /** With non-negative slopes the first segment stays at or below `base +
      slope1` and the second at or above it. */
  lemma SegmentsMeetAtKink(p: RateParams, u: int, u': int)
    requires ValidCurve(p) && p.slope1 >= 0 && p.slope2 >= 0
    requires u <= p.optimalUtilization < u'
    ensures BorrowRate(p, u) <= p.baseRate + p.slope1 <= BorrowRate(p, u')
  {
    var opt := p.optimalUtilization;
    MulMonotone(u, opt, p.slope1);
    assert opt * p.slope1 == p.slope1 * opt;
    QuotMonotone(u * p.slope1, p.slope1 * opt, opt);
    QuotOfMultiple(p.slope1, opt);
    ExcessNonNegative(p, u');
    var e := ExcessUtilization(p, u');
    MulMonotone(0, e, p.slope2);
    QuotOfNonNegative(e * p.slope2, SCALE);
  }

  /** With non-negative slopes the borrow rate never decreases as utilization
      grows, across the kink included. */
  lemma BorrowRateMonotone(p: RateParams, u: int, u': int)
    requires ValidCurve(p) && p.slope1 >= 0 && p.slope2 >= 0
    requires u <= u'
    ensures BorrowRate(p, u) <= BorrowRate(p, u')
  {
    if u' <= p.optimalUtilization {
      BelowKinkMonotone(p, u, u');
    } else if u > p.optimalUtilization {
      AboveKinkMonotone(p, u, u');
    } else {
      SegmentsMeetAtKink(p, u, u');
    }
  }

  lemma BelowKinkMonotone(p: RateParams, u: int, u': int)
    requires ValidCurve(p) && p.slope1 >= 0
    requires u <= u' <= p.optimalUtilization
    ensures BorrowRate(p, u) <= BorrowRate(p, u')
  {
    MulMonotone(u, u', p.slope1);
    QuotMonotone(u * p.slope1, u' * p.slope1, p.optimalUtilization);
  }

  lemma AboveKinkMonotone(p: RateParams, u: int, u': int)
    requires ValidCurve(p) && p.slope2 >= 0
    requires p.optimalUtilization < u <= u'
    ensures BorrowRate(p, u) <= BorrowRate(p, u')
  {
    var opt := p.optimalUtilization;
    QuotMonotone((u - opt) * SCALE, (u' - opt) * SCALE, SCALE - opt);
    var e, e' := ExcessUtilization(p, u), ExcessUtilization(p, u');
    MulMonotone(e, e', p.slope2);
    QuotMonotone(e * p.slope2, e' * p.slope2, SCALE);
  }

  /** On the meaningful range [0, 100%] and with non-negative slopes, the rate
      lies between the base rate and `base + slope1 + slope2`. */
  lemma BorrowRateBounds(p: RateParams, utilization: int)
    requires ValidCurve(p) && p.slope1 >= 0 && p.slope2 >= 0
    requires 0 <= utilization <= SCALE
    ensures p.baseRate <= BorrowRate(p, utilization) <= p.baseRate + p.slope1 + p.slope2
  {
    BorrowRateAtZero(p);
    BorrowRateMonotone(p, 0, utilization);
    BorrowRateAtFullUtilization(p);
    BorrowRateMonotone(p, utilization, SCALE);
  }

  /** Lenders never earn more than borrowers pay: for utilization in [0, 100%]
      and a non-negative borrow rate, the supply rate is between zero and the
      borrow rate. */
  lemma SupplyRateAtMostBorrowRate(p: RateParams, utilization: int)
    requires ValidCurve(p) && 0 <= utilization <= SCALE
    requires BorrowRate(p, utilization) >= 0
    ensures 0 <= SupplyRate(p, utilization) <= BorrowRate(p, utilization)
  {
    var b := BorrowRate(p, utilization);
    MulMonotone(0, utilization, b);
    MulMonotone(utilization, SCALE, b);
    assert utilization * b == b * utilization && SCALE * b == b * SCALE;
    QuotAtMost(b * utilization, SCALE, b);
  }

  /** The contract's own test vectors: base 0%, slope1 4%, slope2 75%, kink at
      80%. */
  lemma ReferenceCurveVectors()
    ensures ValidCurve(RateParams(0, 400_000, 7_500_000, 8_000_000))
    ensures BorrowRate(RateParams(0, 400_000, 7_500_000, 8_000_000), 4_000_000) == 200_000
    ensures BorrowRate(RateParams(0, 400_000, 7_500_000, 8_000_000), 8_000_000) == 400_000
    ensures BorrowRate(RateParams(0, 400_000, 7_500_000, 8_000_000), 9_000_000) == 4_150_000
    ensures BorrowRate(RateParams(0, 400_000, 7_500_000, 8_000_000), 10_000_000) == 7_900_000
    ensures SupplyRate(RateParams(0, 400_000, 7_500_000, 8_000_000), 8_000_000) == 320_000
  {
  }
}
