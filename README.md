# Stellend lending core, modelled in Dafny

This project models the three Soroban contracts of the Stellend protocol that
hold real logic and proves properties of the model:

- **Lending pool** (`contracts/pool`). It keeps USDC deposits and borrows per
  account, XLM collateral per account, and the pool-wide `TotalDeposits` and
  `TotalBorrows`. It is the class `Pool.LendingPool`. Its storage slots are
  fields, and its per-address slots (`UserDeposit`, `UserBorrow`,
  `UserCollateral`) are maps that the methods reassign. Each entry point
  checks everything first and then does read-modify-write updates. A panic
  aborts the call, so a failing check returns `Failure(..)` and changes no
  state. The object invariant `Valid()` says:
  - each total is the sum of its per-account balances;
  - every balance is non-negative, and borrows never exceed deposits;
  - every debt is within 75% (the LTV ratio) of the account's collateral.

  Every method preserves it. The `Ledger` module holds the sums over balance
  maps and the update lemma the proofs rely on.
- **Price oracle** (`contracts/price_oracle`). It holds an admin-set USD price
  per asset symbol at scale 1e7, with the time of its last update. It is the
  class `Oracle.PriceOracle`. The writers are `set_price`, `set_price_chaos`,
  `set_staleness_threshold` and `set_admin`. The readers are pure functions:
  - `get_price` reads 0 for an asset never set;
  - `get_price_safe` and `is_stale` check freshness;
  - `xlm_to_usd` and `usd_to_xlm` convert between XLM and USD.
- **Interest-rate model** (`contracts/interest_rate_model`). It is a kinked,
  two-segment, piecewise-linear borrow rate over utilization at scale 1e7, and
  a supply rate equal to the borrow rate times utilization. The curve is the
  pair of pure functions `RateModel.BorrowRate` and `RateModel.SupplyRate`
  over a `RateParams` value. The class `RateModel.InterestRateModel` holds the
  four parameter slots, which `initialize` writes once. Before that, the
  getters' `unwrap_or` defaults apply.

Rust's `/` on `i128` truncates toward zero. `FixedPoint.Quot` models it,
because Dafny's `/` is Euclidean. The lemmas in `FixedPoint` show that the two
agree on non-negative operands and that `Quot` is monotone.

The host supplies the ledger clock, so it is a parameter `now`. Addresses and
asset symbols are strings.

## Model

| member | source | states |
|---|---|---|
| `FixedPoint.QuotBounds` | contracts/interest_rate_model/src/lib.rs:83 | Rust's `/`: the quotient's magnitude is the floor of the magnitudes' ratio, and its sign is the product of the operands' signs |
| `FixedPoint.QuotOfNonNegative` | contracts/pool/src/lib.rs:340 | for a non-negative dividend and a positive divisor, truncating division equals floor division |
| `FixedPoint.QuotMonotone` | contracts/pool/src/lib.rs:453 | truncating division by a positive divisor is monotone in the dividend, negative dividends included |
| `FixedPoint.QuotOfMultiple` | contracts/interest_rate_model/src/lib.rs:83 | dividing `k * b` by `b` gives back `k` exactly, whatever the sign of `k` |
| `Ledger.SumUpdate` | contracts/pool/src/lib.rs:119-136 | overwriting one account's balance changes the sum of all balances by exactly new minus old, with an absent account counting as 0 |
| `Ledger.SumRemove` | contracts/pool/src/lib.rs:129-136 | any account's balance can be split off from the sum, so the sum does not depend on the order of the accounts |
| `Ledger.SumNonNegative` | contracts/pool/src/lib.rs:397-410 | a sum of non-negative balances is non-negative, so repaying never drives `TotalBorrows` below 0 |
| `Pool.WithinCapacityIff` | contracts/pool/src/lib.rs:338-344 | the capacity test `borrow <= collateral*ltv/10000` holds exactly when `borrow*10000 <= collateral*ltv` (both directions) |
| `Pool.MaxBorrowMonotone` | contracts/pool/src/lib.rs:226-233 | more collateral never lowers the borrowing capacity `collateral*ltv/10000`; `DepositCollateral` uses it to show its deposit never shrinks the account's capacity |
| `Pool.UtilizationBounds` | contracts/pool/src/lib.rs:449-453 | when `0 <= borrows <= deposits`, utilization is in [0, 1e7], and it is exactly 1e7 iff everything deposited is borrowed |
| `Pool.HealthyIff` | contracts/pool/src/lib.rs:494-506 | an indebted account's health factor is at least 1.0 (1e7) iff `borrow*10000 <= collateral*threshold` (both directions) |
| `Pool.CoveredPositionIsHealthy` | contracts/pool/src/lib.rs:83-87 | with LTV 75% below a liquidation threshold of 80%, any debt within LTV capacity has a health factor of at least 1.0 |
| `Pool.LendingPool.Initialize` | contracts/pool/src/lib.rs:63-94 | fails iff already initialized; otherwise stores the configuration with LTV 7500 and threshold 8000, zero totals, borrow index 1e9 and accrual time `now`; changes nothing on failure |
| `Pool.LendingPool.Deposit` | contracts/pool/src/lib.rs:106-142 | amount <= 0 fails, and an uninitialized pool fails; otherwise the account's deposit and `TotalDeposits` each grow by exactly `amount`, which is returned; borrows, collateral and `TotalBorrows` are untouched; the invariant is kept |
| `Pool.LendingPool.Withdraw` | contracts/pool/src/lib.rs:152-204 | fails, in this order, on amount <= 0, deposit < amount, and deposits − borrows < amount, with no write before the checks; otherwise the account's deposit and `TotalDeposits` drop by `amount`; `TotalBorrows` is unchanged and still at most `TotalDeposits` |
| `Pool.LendingPool.DepositCollateral` | contracts/pool/src/lib.rs:213-239 | amount <= 0 fails, and an uninitialized pool fails; otherwise only this account's collateral grows by `amount`, and its borrowing capacity does not shrink; neither total changes |
| `Pool.LendingPool.WithdrawCollateral` | contracts/pool/src/lib.rs:246-294 | fails on amount <= 0, on collateral < amount, and when the account has debt above the LTV capacity of the remaining collateral; the single write comes after all checks and changes only this account's collateral |
| `Pool.LendingPool.Borrow` | contracts/pool/src/lib.rs:303-365 | fails on amount <= 0, on liquidity < amount, and when `user_borrow + amount` exceeds `collateral*ltv/10000`; otherwise the account's debt and `TotalBorrows` both grow by `amount`; afterwards the debt is within capacity and `TotalBorrows <= TotalDeposits` |
| `Pool.LendingPool.Repay` | contracts/pool/src/lib.rs:372-416 | fails on amount <= 0 and when nothing is owed; otherwise repays `min(amount, debt)` (positive, at most `amount`), takes exactly that off the account's debt and `TotalBorrows`, and returns it; the debt stays non-negative |
| `Pool.LendingPool.GetTotalDeposits` | contracts/pool/src/lib.rs:421-426 | the stored total equals the sum of all account deposits and is at least the total borrows |
| `Pool.LendingPool.GetTotalBorrows` | contracts/pool/src/lib.rs:429-434 | the stored total equals the sum of all account debts and lies between 0 and the total deposits |
| `Pool.LendingPool.GetUtilizationRate` | contracts/pool/src/lib.rs:437-454 | 0 for an empty pool; in [0, 1e7] in every reachable state |
| `Pool.LendingPool.GetUserDeposit` | contracts/pool/src/lib.rs:457-462 | an account's deposit is never negative |
| `Pool.LendingPool.GetUserBorrow` | contracts/pool/src/lib.rs:465-470 | an account's debt is between 0 and the LTV capacity of its collateral |
| `Pool.LendingPool.GetUserCollateral` | contracts/pool/src/lib.rs:473-478 | collateral is non-negative, and an account without collateral has no debt |
| `Pool.LendingPool.GetHealthFactor` | contracts/pool/src/lib.rs:482-507 | 999_000_000 for an account without debt; no reachable position's health factor falls below 1.0 (1e7) |
| `Oracle.PriceOracle.GetPrice` | contracts/price_oracle/src/lib.rs:112-117 | the stored price, 0 for an asset never set; never negative under the invariant |
| `Oracle.PriceOracle.GetLastUpdate` | contracts/price_oracle/src/lib.rs:160-166 | the stored timestamp, 0 for an asset never set; an asset without a price has no timestamp under the invariant |
| `Oracle.PriceOracle.GetXlmPrice` | contracts/price_oracle/src/lib.rs:215-218 | the stored XLM price, 0 until XLM is priced, never negative under the invariant; `initialize` leaves it 0, and after `set_price_chaos(XLM, p)` it reads `p / 2` (the test at lib.rs:303-307) |
| `Oracle.PriceOracle.GetUsdcPrice` | contracts/price_oracle/src/lib.rs:220-223 | the stored USDC price, 0 until USDC is priced, never negative under the invariant; after `initialize` it reads 10_000_000 (the test at lib.rs:269) |
| `Oracle.PriceOracle.IsStale` | contracts/price_oracle/src/lib.rs:169-184 | stale iff `last_update + threshold < now`, with threshold 3600 while its slot is absent; an asset never set is stale once `now` passes the threshold |
| `Oracle.SafeReadIffFresh` | contracts/price_oracle/src/lib.rs:129-184 | for a set price, `get_price_safe` succeeds iff `is_stale` is false, and fails as stale otherwise |
| `Oracle.StaleStaysStale` | contracts/price_oracle/src/lib.rs:169-184 | without a new write, a stale price stays stale at every later time |
| `Oracle.PriceOracle.GetAdmin` | contracts/price_oracle/src/lib.rs:198-200 | succeeds iff an admin is stored, and returns that admin |
| `Oracle.PriceOracle.GetPriceSafe` | contracts/price_oracle/src/lib.rs:129-158 | a zero (unset) price fails with "not set"; a non-zero price succeeds iff `!is_stale`, and otherwise fails as stale; on success it returns `get_price` |
| `Oracle.PriceOracle.XlmToUsd` | contracts/price_oracle/src/lib.rs:232-235 | `x*price/1e7` at the stored XLM price: non-negative for a non-negative amount, and 0 while XLM is unpriced |
| `Oracle.PriceOracle.UsdToXlm` | contracts/price_oracle/src/lib.rs:244-250 | fails iff the XLM price is 0; otherwise returns `usd*1e7/price` |
| `Oracle.PriceOracle.Initialize` | contracts/price_oracle/src/lib.rs:45-58 | fails iff an admin is stored, changing nothing; otherwise stores the admin, threshold 3600 and a USDC price of 10_000_000 stamped `now`, which a safe read and `get_usdc_price` then return, while `get_xlm_price` reads 0 |
| `Oracle.PriceOracle.SetPrice` | contracts/price_oracle/src/lib.rs:65-80 | fails before initialization and on price <= 0; otherwise stores exactly `price` and `LastUpdate = now` for that asset only; `get_price`, `get_price_safe` and, for XLM, `get_xlm_price` then return it |
| `Oracle.PriceOracle.SetPriceChaos` | contracts/price_oracle/src/lib.rs:87-103 | same checks as `set_price`; stores `price / 2` for that asset only, which `get_xlm_price` returns for XLM; a safe read then returns half the price for inputs >= 2, and "not set" for an input of 1 |
| `Oracle.PriceOracle.SetStalenessThreshold` | contracts/price_oracle/src/lib.rs:190-195 | overwrites only the threshold slot; fails before initialization |
| `Oracle.PriceOracle.SetAdmin` | contracts/price_oracle/src/lib.rs:206-211 | overwrites only the admin slot, with no handshake; fails before initialization |
| `Oracle.ChaosPriceHalves` | contracts/price_oracle/src/lib.rs:95-98 | the chaos price is the floor of half the input, with `2c <= p <= 2c+1`, and it is 0 exactly when the input is 1 |
| `Oracle.ChaosPriceVector` | contracts/price_oracle/src/lib.rs:302-307 | 3_000_000 becomes 1_500_000, and 1 becomes 0 |
| `Oracle.StalenessBoundary` | contracts/price_oracle/src/lib.rs:153 | an age equal to the threshold is fresh; one second more is stale |
| `Oracle.ConversionVector` | contracts/price_oracle/src/lib.rs:321-327 | 100e7 XLM units at 3_000_000 are worth 30e7 |
| `Oracle.ToUsdNonNegative` | contracts/price_oracle/src/lib.rs:234 | a non-negative amount at a non-negative price has a non-negative USD value |
| `Oracle.RoundTripNeverGains` | contracts/price_oracle/src/lib.rs:232-250 | for x >= 0 and price > 0, `usd_to_xlm(xlm_to_usd(x))` is between 0 and x |
| `Oracle.RoundTripLossBound` | contracts/price_oracle/src/lib.rs:232-250 | the round-trip loss satisfies `(x − back) * price < 1e7 + price`: at most one truncation per division |
| `Oracle.RoundTripAtParIsExact` | contracts/price_oracle/src/lib.rs:232-250 | at a price of exactly 1e7 the round trip returns x |
| `Oracle.RoundTripCanLoseMoreThanOneUnit` | contracts/price_oracle/src/lib.rs:234 | 3 units at 3_000_000 are worth 0 USD, so the round trip loses 3 units |
| `RateModel.InterestRateModel.Initialize` | contracts/interest_rate_model/src/lib.rs:46-65 | fails if already initialized, then fails if optimal <= 0 or >= 1e7; otherwise stores exactly the four parameters; changes nothing on failure |
| `RateModel.InterestRateModel.GetBorrowRate` | contracts/interest_rate_model/src/lib.rs:74-91 | before initialization the rate is 0 at every utilization |
| `RateModel.InterestRateModel.GetSupplyRate` | contracts/interest_rate_model/src/lib.rs:103-107 | before initialization the supply rate is 0 at every utilization |
| `RateModel.InterestRateModel.GetBaseRate` | contracts/interest_rate_model/src/lib.rs:109-111 | the stored base rate, 0 before `initialize` |
| `RateModel.InterestRateModel.GetSlope1` | contracts/interest_rate_model/src/lib.rs:114-116 | the stored slope1, 0 before `initialize` |
| `RateModel.InterestRateModel.GetSlope2` | contracts/interest_rate_model/src/lib.rs:119-121 | the stored slope2, 0 before `initialize` |
| `RateModel.InterestRateModel.GetOptimalUtilization` | contracts/interest_rate_model/src/lib.rs:124-126 | the stored kink, 8_000_000 before `initialize`; always strictly between 0 and 1e7 |
| `RateModel.DefaultRatesAreZero` | contracts/interest_rate_model/src/lib.rs:75-78 | the defaults (base 0, slopes 0, optimal 8_000_000) form a valid curve on which both rates are 0 everywhere |
| `RateModel.BorrowRateAtZero` | contracts/interest_rate_model/src/lib.rs:80-83 | at 0 utilization the rate is the base rate |
| `RateModel.BorrowRateAtKink` | contracts/interest_rate_model/src/lib.rs:80-90 | continuity at the kink: at u = optimal, both the first segment and the second-segment formula give `base + slope1` |
| `RateModel.BorrowRateAtFullUtilization` | contracts/interest_rate_model/src/lib.rs:84-90 | at 100% the excess is exactly 1e7, and the rate is `base + slope1 + slope2` |
| `RateModel.ExcessNonNegative` | contracts/interest_rate_model/src/lib.rs:88 | at or past the kink the excess-utilization fraction is non-negative |
| `RateModel.SegmentsMeetAtKink` | contracts/interest_rate_model/src/lib.rs:80-90 | with non-negative slopes, the first segment stays at or below `base + slope1` and the second at or above it |
| `RateModel.BelowKinkMonotone` | contracts/interest_rate_model/src/lib.rs:80-83 | with slope1 >= 0, the first segment is non-decreasing |
| `RateModel.AboveKinkMonotone` | contracts/interest_rate_model/src/lib.rs:84-90 | with slope2 >= 0, the second segment is non-decreasing |
| `RateModel.BorrowRateMonotone` | contracts/interest_rate_model/src/lib.rs:23-30 | with slopes >= 0 and 0 < optimal < 1e7, the borrow rate never decreases as utilization grows, across the kink included |
| `RateModel.BorrowRateBounds` | contracts/interest_rate_model/src/lib.rs:80-90 | on [0, 1e7] with slopes >= 0, the rate lies between `base` and `base + slope1 + slope2` |
| `RateModel.SupplyRateAtMostBorrowRate` | contracts/interest_rate_model/src/lib.rs:103-107 | for 0 <= u <= 1e7 and a non-negative borrow rate, 0 <= supply rate <= borrow rate |
| `RateModel.ReferenceCurveVectors` | contracts/interest_rate_model/src/lib.rs:154-209 | with (0, 400_000, 7_500_000, 8_000_000): 200_000 at 40%, 400_000 at 80%, 4_150_000 at 90%, 7_900_000 at 100%, and a supply rate of 320_000 at 80% |

## Left out

- Authorization (`require_auth`) is not modelled. Any caller may invoke any entry point.
- Token transfers (`token::Client::transfer`) are not modelled. They are assumed to succeed. If one failed, the host would abort the call, and the model already treats an aborted call as leaving no state change.
- Event publishing is not modelled. It has no effect on state.
- The host's storage API is not modelled. Its slots are fields and maps, and an absent slot reads through `unwrap_or` as its default.
- Machine-width arithmetic is not modelled. `i128` and `u32` are unbounded integers, so an overflowing multiplication (for example `collateral * ltv`) does not panic in the model.
- `u64` timestamps and the threshold are `nat`. `now - last_update` cannot underflow in the model.
- Oracle.PriceOracle.GetPriceSafe: requires `now` to be at least the stored update time. The ledger clock never runs behind a timestamp it wrote, so the `u64` subtraction's underflow panic is not modelled.
- Oracle.PriceOracle.IsStale: has the same `now` precondition, for the same reason.
- Pool.LendingPool.Withdraw: the source reads the USDC token address with `unwrap` after its writes. The model checks nothing there and proves the read cannot fail: an uninitialized pool holds no deposits.
- Pool.LendingPool.Borrow: the same holds for the `unwrap` of the LTV slot. It cannot fail, because an uninitialized pool has no liquidity.
- Pool.LendingPool.Repay: the same holds for the token read. It cannot fail, because only an initialized pool has debt.
- Pool.LendingPool.WithdrawCollateral: the same holds for its `unwrap` reads. They cannot fail, because only an initialized pool has collateral.
- Pool.LendingPool.GetHealthFactor: requires the pool invariant. Under it, an indebted account implies an initialized pool, so the `unwrap` of the liquidation threshold cannot fail.
- The pool has no interest accrual, no borrow-index advance, no liquidation and no oracle-priced valuation. The pool contract does not implement them. It values collateral and debt 1:1, and `BorrowIndex` and `LastAccrualTime` are written only by `initialize`. Nothing here invents them.
- `contracts/lending_pool`, `contracts/collateral` and `contracts/oracle` are not part of this model. Their entry points are placeholders that return constants.
- The pool's own comments mark what it does not do yet, and the model follows the code as written:
  - `withdraw_collateral` has a comment saying it should check the health factor against an oracle price (contracts/pool/src/lib.rs:262, 271-272). Instead it checks the LTV capacity of the remaining collateral (`WithdrawCollateral`).
  - `borrow` and `get_health_factor` value collateral and debt 1:1, and their comments say oracle prices are still to come (contracts/pool/src/lib.rs:339, 504-505).
  - No pool entry point accrues interest. `BorrowIndex` and `LastAccrualTime` are written only by `initialize`.
- Two properties of the oracle code, proved as written:
  - `set_price_chaos(1)` stores 0, which then reads as unset (`SetPriceChaos`, `ChaosPriceHalves`).
  - An XLM–USD round trip can lose more than one unit, up to about `1e7 / price + 1` units (`RoundTripLossBound`, `RoundTripCanLoseMoreThanOneUnit`).
