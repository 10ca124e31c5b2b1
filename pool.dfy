/** The lending-pool contract (contracts/pool): USDC deposits and borrows,
    XLM collateral, and the pool totals. Every entry point checks its
    preconditions and only then does read-modify-write updates of the storage
    slots; a failed check panics, which aborts the call with no state change.
    Valuation is 1:1 (the pool does not consult the oracle), and no interest
    accrues: the borrow index and the accrual time are written only by
    `initialize`. */
module Pool {
  import opened Wrappers
  import opened FixedPoint
  import opened Ledger

  /** Fixed-point scale of utilization and health factor (1e7 = 1.0). */
  const SCALE: int := 10_000_000
  /** Denominator of the LTV ratio and the liquidation threshold. */
  const BPS: int := 10_000
  /** Loan-to-value, 75%. */
  const LTV_RATIO: nat := 7500
  /** Liquidation threshold, 80%. */
  const LIQUIDATION_THRESHOLD: nat := 8000
  /** The borrow index starts at 1.0 at scale 1e9. */
  const INITIAL_BORROW_INDEX: int := 1_000_000_000
  /** The health factor reported for an account with no debt. */
  const NO_DEBT_HEALTH_FACTOR: int := 999_000_000

  /** The configuration slots `initialize` writes together. */
  datatype Config = Config(
    admin: Address,
    usdcToken: Address,
    xlmToken: Address,
    interestRateModel: Address,
    priceOracle: Address,
    ltvRatio: nat,
    liquidationThreshold: nat)

  datatype PoolError =
    | AlreadyInitialized      // "Already initialized"
    | NotInitialized          // a configuration slot read with `unwrap` is absent
    | InvalidAmount           // "Amount must be positive"
    | InsufficientDeposit     // "Insufficient deposit balance"
    | InsufficientLiquidity   // "Insufficient pool liquidity"
    | InsufficientCollateral  // "Insufficient collateral"
    | UnhealthyWithdrawal     // "Withdrawal would make position unhealthy"
    | ExceedsCapacity         // "Borrow amount exceeds capacity"
    | NoOutstandingBorrow     // "No outstanding borrow"

  /** `collateral * ltv / 10000`: the most an account may owe, at 1:1 value. */
  function MaxBorrow(collateral: int, ltv: int): int {
    Quot(collateral * ltv, BPS)
  }

  /** Utilization at scale 1e7; zero for an empty pool. */
  function UtilizationOf(deposits: int, borrows: int): int {
    if deposits == 0 then 0 else Quot(borrows * SCALE, deposits)
  }

  /** Health factor at scale 1e7: `collateral * threshold * 1e7 / (borrow *
      10000)`, or the no-debt sentinel. */
  function HealthFactorOf(collateral: int, borrow: int, threshold: int): int {
    if borrow == 0 then NO_DEBT_HEALTH_FACTOR
    else Quot(collateral * threshold * SCALE, borrow * BPS)
  }

  /** The capacity test with the division taken out: owing at most
      `MaxBorrow` is owing at most the exact fraction `ltv / 10000` of the
      collateral. */
  lemma WithinCapacityIff(collateral: int, ltv: int, borrow: int)
    requires collateral >= 0 && ltv >= 0
    ensures borrow <= MaxBorrow(collateral, ltv) <==> borrow * BPS <= collateral * ltv
  {
    MulMonotone(0, collateral, ltv);
    var m := MaxBorrow(collateral, ltv);
    QuotOfNonNegative(collateral * ltv, BPS);
    if borrow <= m {
      MulMonotone(borrow, m, BPS);
    } else {
      MulMonotone(m + 1, borrow, BPS);
    }
  }

  /** More collateral never lowers capacity. */
  lemma MaxBorrowMonotone(collateral: int, collateral': int, ltv: int)
    requires collateral <= collateral' && ltv >= 0
    ensures MaxBorrow(collateral, ltv) <= MaxBorrow(collateral', ltv)
  {
    MulMonotone(collateral, collateral', ltv);
    QuotMonotone(collateral * ltv, collateral' * ltv, BPS);
  }

  /** Utilization lies in [0, 100%] whenever borrows are between zero and the
      deposits; it is 100% exactly when everything deposited is borrowed. */
  lemma UtilizationBounds(deposits: int, borrows: int)
    requires 0 <= borrows <= deposits
    ensures 0 <= UtilizationOf(deposits, borrows) <= SCALE
    ensures deposits > 0 ==> (UtilizationOf(deposits, borrows) == SCALE <==> borrows == deposits)
  {
    if deposits > 0 {
      QuotOfNonNegative(borrows * SCALE, deposits);
      assert SCALE * deposits == deposits * SCALE;
      QuotAtMost(borrows * SCALE, deposits, SCALE);
      if borrows == deposits {
        QuotOfMultiple(SCALE, deposits);
      } else {
        var u := UtilizationOf(deposits, borrows);
        MulStrictLeft(SCALE, borrows, deposits);
        MulStrictLeft(deposits, u, SCALE);
      }
    }
  }

  /** An indebted account is at or above a health factor of 1.0 exactly when
      its debt is at most `threshold / 10000` of its collateral. */
  lemma HealthyIff(collateral: int, borrow: int, threshold: int)
    requires collateral >= 0 && threshold >= 0 && borrow > 0
    ensures HealthFactorOf(collateral, borrow, threshold) >= SCALE <==> borrow * BPS <= collateral * threshold
  {
    var n := collateral * threshold * SCALE;
    var d := borrow * BPS;
    MulMonotone(0, collateral, threshold);
    MulMonotone(0, collateral * threshold, SCALE);
    QuotOfNonNegative(n, d);
    var q := Quot(n, d);
    if borrow * BPS <= collateral * threshold {
      MulMonotone(d, collateral * threshold, SCALE);
      assert SCALE * d == d * SCALE;
      QuotAtLeast(n, d, SCALE);
    }
    if q >= SCALE {
      MulMonotone(SCALE, q, d);
      assert d * SCALE <= n;
      MulStrictLeft(SCALE, collateral * threshold, d);
    }
  }

  /** Under 1:1 valuation, any debt within the 75% LTV capacity has a health
      factor of at least 1.0, because the 80% liquidation threshold is looser. */
  lemma CoveredPositionIsHealthy(collateral: int, borrow: int)
    requires collateral >= 0 && 0 < borrow <= MaxBorrow(collateral, LTV_RATIO)
    ensures HealthFactorOf(collateral, borrow, LIQUIDATION_THRESHOLD) >= SCALE
  {
    WithinCapacityIff(collateral, LTV_RATIO, borrow);
    MulMonotone(LTV_RATIO, LIQUIDATION_THRESHOLD, collateral);
    assert LTV_RATIO * collateral == collateral * LTV_RATIO;
    assert LIQUIDATION_THRESHOLD * collateral == collateral * LIQUIDATION_THRESHOLD;
    HealthyIff(collateral, borrow, LIQUIDATION_THRESHOLD);
  }

  /** The contract's storage. */
  class LendingPool {
    var config: Option<Config>
    var totalDeposits: int
    var totalBorrows: int
    var borrowIndex: Option<int>
    var lastAccrualTime: Option<nat>
    var userDeposit: map<Address, int>
    var userBorrow: map<Address, int>
    var userCollateral: map<Address, int>

    /** The ledger invariant: each total is the sum of its per-account
        balances, every balance is non-negative, the pool never lends more
        than it holds, and every account's debt is within the LTV capacity of
        its collateral. Before `initialize` the ledger is empty. */
    ghost predicate Valid()
      reads this
    {
      && (config.None? ==> userDeposit == map[] && userBorrow == map[] && userCollateral == map[])
      && (config.Some? ==> config.value.ltvRatio == LTV_RATIO
                           && config.value.liquidationThreshold == LIQUIDATION_THRESHOLD)
      && totalDeposits == Sum(userDeposit)
      && totalBorrows == Sum(userBorrow)
      && NonNegative(userDeposit) && NonNegative(userBorrow) && NonNegative(userCollateral)
      && 0 <= totalBorrows <= totalDeposits
      && CoveredDebts()
    }

    /** Every account's debt is within the LTV capacity of its collateral,
        stated without the division (see WithinCapacityIff). */
    ghost predicate CoveredDebts()
      reads this
    {
      forall a :: a in userBorrow ==> userBorrow[a] * BPS <= CollateralOf(a) * LTV_RATIO
    }

    /** A freshly deployed contract: every slot absent. */
    constructor ()
      ensures Valid()
      ensures config == None && borrowIndex == None && lastAccrualTime == None
      ensures totalDeposits == 0 && totalBorrows == 0
      ensures userDeposit == map[] && userBorrow == map[] && userCollateral == map[]
    {
      config, borrowIndex, lastAccrualTime := None, None, None;
      totalDeposits, totalBorrows := 0, 0;
      userDeposit, userBorrow, userCollateral := map[], map[], map[];
    }

    function DepositOf(user: Address): int
      reads this
    {
      BalanceOf(userDeposit, user)
    }

    function BorrowOf(user: Address): int
      reads this
    {
      BalanceOf(userBorrow, user)
    }

    function CollateralOf(user: Address): int
      reads this
    {
      BalanceOf(userCollateral, user)
    }

    /** `get_user_deposit`, `get_user_borrow`, `get_user_collateral`. */
    function GetUserDeposit(user: Address): (r: int)
      reads this
      requires Valid()
      ensures r >= 0
    {
      DepositOf(user)
    }

    function GetUserBorrow(user: Address): (r: int)
      reads this
      requires Valid()
      ensures 0 <= r <= MaxBorrow(CollateralOf(user), LTV_RATIO)
    {
      WithinCapacityIff(CollateralOf(user), LTV_RATIO, BorrowOf(user));
      BorrowOf(user)
    }

    function GetUserCollateral(user: Address): (r: int)
      reads this
      requires Valid()
      ensures r >= 0
      ensures r == 0 ==> BorrowOf(user) == 0
    {
      CollateralOf(user)
    }

    /** `get_total_deposits` and `get_total_borrows`. */
    function GetTotalDeposits(): (r: int)
      reads this
      requires Valid()
      ensures r == Sum(userDeposit) && r >= totalBorrows
    {
      totalDeposits
    }

    function GetTotalBorrows(): (r: int)
      reads this
      requires Valid()
      ensures r == Sum(userBorrow) && 0 <= r <= totalDeposits
    {
      totalBorrows
    }

    /** `get_utilization_rate`: in [0, 100%] for every reachable state. */
    function GetUtilizationRate(): (r: int)
      reads this
      requires Valid()
      ensures 0 <= r <= SCALE
      ensures totalDeposits == 0 ==> r == 0
    {
      UtilizationBounds(totalDeposits, totalBorrows);
      UtilizationOf(totalDeposits, totalBorrows)
    }

    /** `get_health_factor`: the sentinel for an account without debt;
        otherwise the 1:1 health factor, which the LTV invariant keeps at or
        above 1.0: no reachable position's health factor falls below 1e7. */
    function GetHealthFactor(user: Address): (r: int)
      reads this
      requires Valid()
      ensures BorrowOf(user) == 0 ==> r == NO_DEBT_HEALTH_FACTOR
      ensures r >= SCALE
    {
      var b := BorrowOf(user);
      if b == 0 then NO_DEBT_HEALTH_FACTOR
      else
        assert user in userBorrow;
        WithinCapacityIff(CollateralOf(user), LTV_RATIO, b);
        CoveredPositionIsHealthy(CollateralOf(user), b);
        HealthFactorOf(CollateralOf(user), b, config.value.liquidationThreshold)
    }

    /** `initialize`: fails if the admin slot is present; otherwise stores the
        configuration with LTV 75% and liquidation threshold 80%, zero
        totals, a borrow index of 1.0 and the current time. */
    method Initialize(admin: Address, usdcToken: Address, xlmToken: Address,
                      interestRateModel: Address, priceOracle: Address, now: nat)
      returns (r: Outcome<PoolError>)
      requires Valid()
      modifies this`config, this`totalDeposits, this`totalBorrows, this`borrowIndex, this`lastAccrualTime
      ensures Valid()
      ensures r.Fail? <==> old(config).Some?
      ensures r.Fail? ==> r.error == AlreadyInitialized && unchanged(this)
      ensures r.Pass? ==> && config == Some(Config(admin, usdcToken, xlmToken, interestRateModel, priceOracle,
                                                   LTV_RATIO, LIQUIDATION_THRESHOLD))
                          && totalDeposits == 0 && totalBorrows == 0
                          && borrowIndex == Some(INITIAL_BORROW_INDEX) && lastAccrualTime == Some(now)
    {
      if config.Some? {
        return Fail(AlreadyInitialized);
      }
      config := Some(Config(admin, usdcToken, xlmToken, interestRateModel, priceOracle,
                            LTV_RATIO, LIQUIDATION_THRESHOLD));
      totalDeposits, totalBorrows := 0, 0;
      borrowIndex := Some(INITIAL_BORROW_INDEX);
      lastAccrualTime := Some(now);
      r := Pass;
    }

    /** `deposit`: a positive amount is added to the account's deposit and to
        the total deposits, and returned. */
    method Deposit(user: Address, amount: int) returns (r: Result<int, PoolError>)
      requires Valid()
      modifies this`userDeposit, this`totalDeposits
      ensures Valid()
      ensures amount <= 0 ==> r == Failure(InvalidAmount)
      ensures amount > 0 && config.None? ==> r == Failure(NotInitialized)
      ensures r.Success? <==> amount > 0 && config.Some?
      ensures r.Failure? ==> unchanged(this)
      ensures r.Success? ==> && r.value == amount
                             && userDeposit == old(userDeposit)[user := old(DepositOf(user)) + amount]
                             && totalDeposits == old(totalDeposits) + amount
    {
      if amount <= 0 {
        return Failure(InvalidAmount);
      }
      // The USDC token address is read with `unwrap` before any write.
      if config.None? {
        return Failure(NotInitialized);
      }
      var current := DepositOf(user);
      SumUpdate(userDeposit, user, current + amount);
      userDeposit := userDeposit[user := current + amount];
      totalDeposits := totalDeposits + amount;
      r := Success(amount);
    }

    /** `withdraw`: fails when the account holds less than `amount`, or when
        the pool's free liquidity (deposits minus borrows) is less; otherwise
        takes `amount` off the account's deposit and the total deposits. */
    method Withdraw(user: Address, amount: int) returns (r: Result<int, PoolError>)
      requires Valid()
      modifies this`userDeposit, this`totalDeposits
      ensures Valid()
      ensures amount <= 0 ==> r == Failure(InvalidAmount)
      ensures amount > 0 && old(DepositOf(user)) < amount ==> r == Failure(InsufficientDeposit)
      ensures amount > 0 && old(DepositOf(user)) >= amount && old(totalDeposits - totalBorrows) < amount
              ==> r == Failure(InsufficientLiquidity)
      ensures r.Success? <==> 0 < amount <= old(DepositOf(user)) && amount <= old(totalDeposits - totalBorrows)
      ensures r.Failure? ==> unchanged(this)
      ensures r.Success? ==> && r.value == amount
                             && userDeposit == old(userDeposit)[user := old(DepositOf(user)) - amount]
                             && totalDeposits == old(totalDeposits) - amount
                             && totalBorrows <= totalDeposits
    {
      if amount <= 0 {
        return Failure(InvalidAmount);
      }
      var current := DepositOf(user);
      if current < amount {
        return Failure(InsufficientDeposit);
      }
      var available := totalDeposits - totalBorrows;
      if available < amount {
        return Failure(InsufficientLiquidity);
      }
      // The USDC token address read with `unwrap` after the writes cannot
      // fail: an uninitialized pool holds no deposits.
      assert user in userDeposit && config.Some?;
      SumUpdate(userDeposit, user, current - amount);
      userDeposit := userDeposit[user := current - amount];
      totalDeposits := totalDeposits - amount;
      r := Success(amount);
    }

    /** `deposit_collateral`: a positive amount is added to the account's
        collateral; no total changes. */
    method DepositCollateral(user: Address, amount: int) returns (r: Result<int, PoolError>)
      requires Valid()
      modifies this`userCollateral
      ensures Valid()
      ensures amount <= 0 ==> r == Failure(InvalidAmount)
      ensures amount > 0 && config.None? ==> r == Failure(NotInitialized)
      ensures r.Success? <==> amount > 0 && config.Some?
      ensures r.Failure? ==> unchanged(this)
      ensures r.Success? ==> && r.value == amount
                             && userCollateral == old(userCollateral)[user := old(CollateralOf(user)) + amount]
      ensures r.Success? ==> MaxBorrow(old(CollateralOf(user)), LTV_RATIO) <= MaxBorrow(CollateralOf(user), LTV_RATIO)
    {
      if amount <= 0 {
        return Failure(InvalidAmount);
      }
      // The XLM token address is read with `unwrap` before any write.
      if config.None? {
        return Failure(NotInitialized);
      }
      var current := CollateralOf(user);
      userCollateral := userCollateral[user := current + amount];
      MaxBorrowMonotone(current, current + amount, LTV_RATIO);
      r := Success(amount);
    }

    /** `withdraw_collateral`: fails when the account holds less than
        `amount`, or when it has debt and that debt would exceed the LTV
        capacity of the remaining collateral. All checks come before the one
        write, which touches only this account's collateral. */
    method WithdrawCollateral(user: Address, amount: int) returns (r: Result<int, PoolError>)
      requires Valid()
      modifies this`userCollateral
      ensures Valid()
      ensures amount <= 0 ==> r == Failure(InvalidAmount)
      ensures amount > 0 && old(CollateralOf(user)) < amount ==> r == Failure(InsufficientCollateral)
      ensures amount > 0 && old(CollateralOf(user)) >= amount && BorrowOf(user) > 0
              && BorrowOf(user) > MaxBorrow(old(CollateralOf(user)) - amount, LTV_RATIO)
              ==> r == Failure(UnhealthyWithdrawal)
      ensures r.Success? <==> && 0 < amount <= old(CollateralOf(user))
                              && (BorrowOf(user) > 0 ==> BorrowOf(user) <= MaxBorrow(old(CollateralOf(user)) - amount, LTV_RATIO))
      ensures r.Failure? ==> unchanged(this)
      ensures r.Success? ==> && r.value == amount
                             && userCollateral == old(userCollateral)[user := old(CollateralOf(user)) - amount]
    {
      if amount <= 0 {
        return Failure(InvalidAmount);
      }
      var current := CollateralOf(user);
      if current < amount {
        return Failure(InsufficientCollateral);
      }
      var newCollateral := current - amount;
      var userBorrowed := BorrowOf(user);
      // The configuration is present: an uninitialized pool holds no collateral.
      assert user in userCollateral && config.Some?;
      if userBorrowed > 0 {
        var maxBorrow := MaxBorrow(newCollateral, config.value.ltvRatio);
        if userBorrowed > maxBorrow {
          return Failure(UnhealthyWithdrawal);
        }
      }
      WithinCapacityIff(newCollateral, LTV_RATIO, userBorrowed);
      userCollateral := userCollateral[user := newCollateral];
      r := Success(amount);
    }

    /** `borrow`: fails when the pool's free liquidity is short, or when the
        account's debt after the borrow would exceed the LTV capacity of its
        collateral; otherwise adds `amount` to the account's debt and to the
        total borrows. */
    method Borrow(user: Address, amount: int) returns (r: Result<int, PoolError>)
      requires Valid()
      modifies this`userBorrow, this`totalBorrows
      ensures Valid()
      ensures amount <= 0 ==> r == Failure(InvalidAmount)
      ensures amount > 0 && old(totalDeposits - totalBorrows) < amount ==> r == Failure(InsufficientLiquidity)
      ensures amount > 0 && old(totalDeposits - totalBorrows) >= amount
              && old(BorrowOf(user)) + amount > MaxBorrow(CollateralOf(user), LTV_RATIO)
              ==> r == Failure(ExceedsCapacity)
      ensures r.Success? <==> && 0 < amount <= old(totalDeposits - totalBorrows)
                              && old(BorrowOf(user)) + amount <= MaxBorrow(CollateralOf(user), LTV_RATIO)
      ensures r.Failure? ==> unchanged(this)
      ensures r.Success? ==> && r.value == amount
                             && userBorrow == old(userBorrow)[user := old(BorrowOf(user)) + amount]
                             && totalBorrows == old(totalBorrows) + amount
                             && BorrowOf(user) <= MaxBorrow(CollateralOf(user), LTV_RATIO)
                             && totalBorrows <= totalDeposits
    {
      if amount <= 0 {
        return Failure(InvalidAmount);
      }
      var available := totalDeposits - totalBorrows;
      if available < amount {
        return Failure(InsufficientLiquidity);
      }
      var collateral := CollateralOf(user);
      var userBorrowed := BorrowOf(user);
      // The LTV slot is read with `unwrap`; it is present because an
      // uninitialized pool holds no deposits, hence no liquidity.
      assert userDeposit != map[] && config.Some?;
      var maxBorrow := MaxBorrow(collateral, config.value.ltvRatio);
      if userBorrowed + amount > maxBorrow {
        return Failure(ExceedsCapacity);
      }
      WithinCapacityIff(collateral, LTV_RATIO, userBorrowed + amount);
      SumUpdate(userBorrow, user, userBorrowed + amount);
      userBorrow := userBorrow[user := userBorrowed + amount];
      totalBorrows := totalBorrows + amount;
      r := Success(amount);
    }

    /** `repay`: the repayment is capped at the outstanding debt; it fails
        when that cap is zero; otherwise the account's debt and the total
        borrows both drop by the capped amount, which is returned. */
    method Repay(user: Address, amount: int) returns (r: Result<int, PoolError>)
      requires Valid()
      modifies this`userBorrow, this`totalBorrows
      ensures Valid()
      ensures amount <= 0 ==> r == Failure(InvalidAmount)
      ensures amount > 0 && old(BorrowOf(user)) == 0 ==> r == Failure(NoOutstandingBorrow)
      ensures r.Success? <==> amount > 0 && old(BorrowOf(user)) > 0
      ensures r.Failure? ==> unchanged(this)
      ensures r.Success? ==> && r.value == (if amount < old(BorrowOf(user)) then amount else old(BorrowOf(user)))
                             && 0 < r.value <= amount
                             && userBorrow == old(userBorrow)[user := old(BorrowOf(user)) - r.value]
                             && totalBorrows == old(totalBorrows) - r.value
                             && BorrowOf(user) >= 0
    {
      if amount <= 0 {
        return Failure(InvalidAmount);
      }
      var userBorrowed := BorrowOf(user);
      var repayAmount := if amount > userBorrowed then userBorrowed else amount;
      if repayAmount == 0 {
        return Failure(NoOutstandingBorrow);
      }
      // The USDC token address is present: only an initialized pool has debt.
      assert user in userBorrow && config.Some?;
      SumUpdate(userBorrow, user, userBorrowed - repayAmount);
      userBorrow := userBorrow[user := userBorrowed - repayAmount];
      assert userBorrow == old(userBorrow)[user := old(BorrowOf(user)) - repayAmount];
      totalBorrows := totalBorrows - repayAmount;
      assert NonNegative(userBorrow);
      SumNonNegative(userBorrow);
      r := Success(repayAmount);
    }
  }
}
