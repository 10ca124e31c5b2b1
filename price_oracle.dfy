/** The price-oracle contract (contracts/price_oracle): an admin-set USD price
    per asset symbol (scale 1e7, $1.00 = 10_000_000), stamped with the ledger
    time of its last update, plus staleness checks and XLM/USD conversions. */
module Oracle {
  import opened Wrappers
  import opened FixedPoint
  import opened Ledger

  type Symbol = string

  const XLM: Symbol := "XLM"
  const USDC: Symbol := "USDC"

  const PRICE_SCALE: int := 10_000_000
  /** What the staleness-threshold slot reads as while it is absent. */
  const DEFAULT_STALENESS_THRESHOLD: nat := 3600

  datatype OracleError =
    | AlreadyInitialized   // "Already initialized"
    | NotInitialized       // the admin slot is read with `unwrap` before initialization
    | InvalidPrice         // "Price must be positive"
    | PriceNotSet          // "Price not set" / "XLM price not set"
    | StalePrice           // "Price is stale"

  /** The price `set_price_chaos` stores: half the input, truncated. */
  function ChaosPrice(price: int): int
    requires price > 0
  {
    Quot(price, 2)
  }

  /** A price is stale when its age is strictly greater than the threshold. */
  predicate Stale(lastUpdate: nat, threshold: nat, now: nat)
    requires now >= lastUpdate
  {
    now - lastUpdate > threshold
  }

  /** `amount * price / PRICE_SCALE`: an asset amount valued in USD. */
  function ToUsd(amount: int, price: int): int {
    Quot(amount * price, PRICE_SCALE)
  }

  /** `usd * PRICE_SCALE / price`: a USD value expressed in asset units. */
  function FromUsd(usd: int, price: int): int
    requires price != 0
  {
    Quot(usd * PRICE_SCALE, price)
  }

  /** The contract's storage slots. */
  class PriceOracle {
    var admin: Option<Address>
    var stalenessThreshold: Option<nat>
    var price: map<Symbol, int>
    var lastUpdate: map<Symbol, nat>

    /** Initialization sets the admin and the threshold together; before it
        no price can be written; every stored price is non-negative (positive
        from `set_price`, possibly zero from `set_price_chaos`). */
    ghost predicate Valid()
      reads this
    {
      && (admin.Some? <==> stalenessThreshold.Some?)
      && (admin.None? ==> price == map[] && lastUpdate == map[])
      && price.Keys == lastUpdate.Keys
      && forall a :: a in price ==> price[a] >= 0
    }

    constructor ()
      ensures Valid()
      ensures admin == None && stalenessThreshold == None && price == map[] && lastUpdate == map[]
    {
      admin, stalenessThreshold := None, None;
      price, lastUpdate := map[], map[];
    }

    /** `get_price`: the stored price, 0 when the asset was never set. Under
        the invariant no read is negative. */
    function GetPrice(asset: Symbol): (r: int)
      reads this
      ensures asset !in price ==> r == 0
      ensures asset in price ==> r == price[asset]
      ensures Valid() ==> r >= 0
    {
      if asset in price then price[asset] else 0
    }

    /** `get_last_update`: the stored timestamp, 0 when never set; under the
        invariant an asset without a price has no timestamp either. */
    function GetLastUpdate(asset: Symbol): (r: nat)
      reads this
      ensures asset !in lastUpdate ==> r == 0
      ensures asset in lastUpdate ==> r == lastUpdate[asset]
      ensures Valid() && asset !in price ==> r == 0
    {
      if asset in lastUpdate then lastUpdate[asset] else 0
    }

    /** The staleness threshold in force (its slot, or the default). */
    function Threshold(): nat
      reads this
    {
      stalenessThreshold.GetOr(DEFAULT_STALENESS_THRESHOLD)
    }

    /** `get_admin` (panics before initialization). */
    function GetAdmin(): (r: Result<Address, OracleError>)
      reads this
      ensures r.Success? <==> admin.Some?
      ensures r.Success? ==> admin == Some(r.value)
    {
      if admin.Some? then Success(admin.value) else Failure(NotInitialized)
    }

    /** `get_xlm_price`: `get_price` of XLM; 0 until XLM is priced. */
    function GetXlmPrice(): (r: int)
      reads this
      ensures XLM !in price ==> r == 0
      ensures XLM in price ==> r == price[XLM]
      ensures Valid() ==> r >= 0
    {
      GetPrice(XLM)
    }

    /** `get_usdc_price`: `get_price` of USDC; 0 until USDC is priced. */
    function GetUsdcPrice(): (r: int)
      reads this
      ensures USDC !in price ==> r == 0
      ensures USDC in price ==> r == price[USDC]
      ensures Valid() ==> r >= 0
    {
      GetPrice(USDC)
    }

    /** `is_stale`. The ledger clock never runs behind a timestamp it wrote,
        so `now` is at least the stored update time. */
    function IsStale(asset: Symbol, now: nat): (r: bool)
      reads this
      requires now >= GetLastUpdate(asset)
      ensures r <==> GetLastUpdate(asset) + Threshold() < now
      ensures stalenessThreshold.None? ==> (r <==> GetLastUpdate(asset) + DEFAULT_STALENESS_THRESHOLD < now)
      ensures asset !in lastUpdate ==> (r <==> Threshold() < now)
    {
      Stale(GetLastUpdate(asset), Threshold(), now)
    }

    /** `get_price_safe`: fails on a zero (unset) price, then on a stale one;
        otherwise it is `get_price`. The freshness test is exactly `is_stale`. */
    function GetPriceSafe(asset: Symbol, now: nat): (r: Result<int, OracleError>)
      reads this
      requires now >= GetLastUpdate(asset)
      ensures GetPrice(asset) == 0 ==> r == Failure(PriceNotSet)
      ensures GetPrice(asset) != 0 ==> (r.Success? <==> !IsStale(asset, now))
      ensures GetPrice(asset) != 0 && IsStale(asset, now) ==> r == Failure(StalePrice)
      ensures r.Success? ==> r.value == GetPrice(asset) != 0
    {
      var p := GetPrice(asset);
      if p == 0 then Failure(PriceNotSet)
      else if now - GetLastUpdate(asset) > Threshold() then Failure(StalePrice)
      else Success(p)
    }

    /** `xlm_to_usd` at the stored XLM price (0 when unset). */
    function XlmToUsd(xlmAmount: int): (r: int)
      reads this
      requires Valid()
      ensures xlmAmount >= 0 ==> r >= 0
      ensures GetPrice(XLM) == 0 ==> r == 0
    {
      assert GetPrice(XLM) >= 0;
      ToUsdNonNegative(xlmAmount, GetPrice(XLM));
      ToUsd(xlmAmount, GetPrice(XLM))
    }

    /** `usd_to_xlm`: fails when the XLM price is unset (zero). */
    function UsdToXlm(usdAmount: int): (r: Result<int, OracleError>)
      reads this
      ensures r.Failure? <==> GetPrice(XLM) == 0
      ensures r.Failure? ==> r.error == PriceNotSet
      ensures r.Success? ==> r.value == FromUsd(usdAmount, GetPrice(XLM))
    {
      var p := GetPrice(XLM);
      if p == 0 then Failure(PriceNotSet) else Success(FromUsd(usdAmount, p))
    }

    /** `initialize`: fails if an admin is stored; otherwise stores the admin,
        a one-hour staleness threshold and a USDC price of $1.00 stamped now. */
    method Initialize(newAdmin: Address, now: nat) returns (r: Outcome<OracleError>)
      requires Valid()
      modifies this
      ensures Valid()
      ensures r.Fail? <==> old(admin).Some?
      ensures r.Fail? ==> r.error == AlreadyInitialized && unchanged(this)
      ensures r.Pass? ==> && admin == Some(newAdmin)
                          && Threshold() == 3600 && stalenessThreshold == Some(3600)
                          && price == map[USDC := PRICE_SCALE]
                          && lastUpdate == map[USDC := now]
      ensures r.Pass? ==> GetPriceSafe(USDC, now) == Success(PRICE_SCALE)
      ensures r.Pass? ==> GetUsdcPrice() == PRICE_SCALE && GetXlmPrice() == 0
    {
      if admin.Some? {
        return Fail(AlreadyInitialized);
      }
      admin := Some(newAdmin);
      stalenessThreshold := Some(DEFAULT_STALENESS_THRESHOLD);
      price := price[USDC := PRICE_SCALE];
      lastUpdate := lastUpdate[USDC := now];
      r := Pass;
    }

    /** `set_price`: fails before initialization or on a non-positive price;
        otherwise overwrites that asset's price and stamps it now. No other
        asset changes, and a safe read at the same instant returns the price. */
    method SetPrice(asset: Symbol, newPrice: int, now: nat) returns (r: Outcome<OracleError>)
      requires Valid()
      modifies this`price, this`lastUpdate
      ensures Valid()
      ensures old(admin).None? ==> r == Fail(NotInitialized)
      ensures old(admin).Some? && newPrice <= 0 ==> r == Fail(InvalidPrice)
      ensures r.Pass? <==> old(admin).Some? && newPrice > 0
      ensures r.Fail? ==> unchanged(this)
      ensures r.Pass? ==> price == old(price)[asset := newPrice] && lastUpdate == old(lastUpdate)[asset := now]
      ensures r.Pass? ==> GetPrice(asset) == newPrice && GetPriceSafe(asset, now) == Success(newPrice)
      ensures r.Pass? && asset == XLM ==> GetXlmPrice() == newPrice
      ensures forall a :: a != asset ==> GetPrice(a) == old(GetPrice(a)) && GetLastUpdate(a) == old(GetLastUpdate(a))
    {
      if admin.None? {
        return Fail(NotInitialized);
      }
      if newPrice <= 0 {
        return Fail(InvalidPrice);
      }
      price := price[asset := newPrice];
      lastUpdate := lastUpdate[asset := now];
      r := Pass;
    }

    /** `set_price_chaos`: as `set_price`, but stores half the price,
        truncated. An input of 1 stores 0, which safe reads then report as not
        set. */
    method SetPriceChaos(asset: Symbol, newPrice: int, now: nat) returns (r: Outcome<OracleError>)
      requires Valid()
      modifies this`price, this`lastUpdate
      ensures Valid()
      ensures old(admin).None? ==> r == Fail(NotInitialized)
      ensures old(admin).Some? && newPrice <= 0 ==> r == Fail(InvalidPrice)
      ensures r.Pass? <==> old(admin).Some? && newPrice > 0
      ensures r.Fail? ==> unchanged(this)
      ensures r.Pass? ==> price == old(price)[asset := ChaosPrice(newPrice)] && lastUpdate == old(lastUpdate)[asset := now]
      ensures r.Pass? ==> GetPriceSafe(asset, now) == if newPrice >= 2 then Success(newPrice / 2) else Failure(PriceNotSet)
      ensures r.Pass? && asset == XLM ==> GetXlmPrice() == newPrice / 2
      ensures forall a :: a != asset ==> GetPrice(a) == old(GetPrice(a)) && GetLastUpdate(a) == old(GetLastUpdate(a))
    {
      if admin.None? {
        return Fail(NotInitialized);
      }
      if newPrice <= 0 {
        return Fail(InvalidPrice);
      }
      ChaosPriceHalves(newPrice);
      price := price[asset := ChaosPrice(newPrice)];
      lastUpdate := lastUpdate[asset := now];
      r := Pass;
    }

    /** `set_staleness_threshold`: overwrites the threshold slot only. */
    method SetStalenessThreshold(threshold: nat) returns (r: Outcome<OracleError>)
      requires Valid()
      modifies this`stalenessThreshold
      ensures Valid()
      ensures r.Fail? <==> old(admin).None?
      ensures r.Fail? ==> r.error == NotInitialized && unchanged(this)
      ensures r.Pass? ==> stalenessThreshold == Some(threshold) && Threshold() == threshold
    {
      if admin.None? {
        return Fail(NotInitialized);
      }
      stalenessThreshold := Some(threshold);
      r := Pass;
    }

    /** `set_admin`: overwrites the admin slot only; no handshake. */
    method SetAdmin(newAdmin: Address) returns (r: Outcome<OracleError>)
      requires Valid()
      modifies this`admin
      ensures Valid()
      ensures r.Fail? <==> old(admin).None?
      ensures r.Fail? ==> r.error == NotInitialized && unchanged(this)
      ensures r.Pass? ==> admin == Some(newAdmin)
    {
      if admin.None? {
        return Fail(NotInitialized);
      }
      admin := Some(newAdmin);
      r := Pass;
    }
  }

  /** The chaos price is the floor of half the input: positive for inputs of
      2 or more, and zero for an input of 1. */
  lemma ChaosPriceHalves(price: int)
    requires price > 0
    ensures ChaosPrice(price) == price / 2
    ensures 2 * ChaosPrice(price) <= price <= 2 * ChaosPrice(price) + 1
    ensures ChaosPrice(price) == 0 <==> price == 1
  {
    QuotOfNonNegative(price, 2);
  }

  /** The contract's chaos test: $0.30 becomes $0.15. */
  lemma ChaosPriceVector()
    ensures ChaosPrice(3_000_000) == 1_500_000
    ensures ChaosPrice(1) == 0
  {
  }

  /** The staleness boundary is inclusive on the fresh side: an age equal to
      the threshold is fresh, one second more is stale. */
  lemma StalenessBoundary(lastUpdate: nat, threshold: nat)
    ensures !Stale(lastUpdate, threshold, lastUpdate + threshold)
    ensures Stale(lastUpdate, threshold, lastUpdate + threshold + 1)
  {
  }

  /** For a set (non-zero) price, the safe read succeeds exactly when
      `is_stale` says the price is fresh, and fails as stale otherwise. */
  lemma SafeReadIffFresh(o: PriceOracle, asset: Symbol, now: nat)
    requires now >= o.GetLastUpdate(asset) && o.GetPrice(asset) != 0
    ensures o.GetPriceSafe(asset, now).Success? <==> !o.IsStale(asset, now)
    ensures o.IsStale(asset, now) ==> o.GetPriceSafe(asset, now) == Failure(StalePrice)
  {
  }

  /** Without a new write, a stale price stays stale as time passes. */
  lemma StaleStaysStale(o: PriceOracle, asset: Symbol, now: nat, later: nat)
    requires o.GetLastUpdate(asset) <= now <= later
    ensures o.IsStale(asset, now) ==> o.IsStale(asset, later)
  {
  }

  /** A non-negative amount at a non-negative price has a non-negative value. */
  lemma ToUsdNonNegative(amount: int, price: int)
    requires price >= 0
    ensures amount >= 0 ==> ToUsd(amount, price) >= 0
  {
    if amount >= 0 {
      MulMonotone(0, amount, price);
    }
  }

  /** The contract's conversion test: 100 XLM at $0.30 is worth $30. */
  lemma ConversionVector()
    ensures ToUsd(100 * PRICE_SCALE, 3_000_000) == 30 * PRICE_SCALE
  {
  }

  /** Converting an asset amount to USD and back never creates value. */
  lemma RoundTripNeverGains(amount: int, price: int)
    requires amount >= 0 && price > 0
    ensures 0 <= FromUsd(ToUsd(amount, price), price) <= amount
  {
    var usd := ToUsd(amount, price);
    MulMonotone(0, amount, price);
    QuotOfNonNegative(amount * price, PRICE_SCALE);
    QuotOfNonNegative(usd * PRICE_SCALE, price);
    assert amount * price == price * amount;
    QuotAtMost(usd * PRICE_SCALE, price, amount);
  }

  /** What the round trip loses is less than `PRICE_SCALE / price + 1` units:
      two truncations, one per division. */
  lemma RoundTripLossBound(amount: int, price: int)
    requires amount >= 0 && price > 0
    ensures (amount - FromUsd(ToUsd(amount, price), price)) * price < PRICE_SCALE + price
  {
    var usd := ToUsd(amount, price);
    var back := FromUsd(usd, price);
    MulMonotone(0, amount, price);
    QuotOfNonNegative(amount * price, PRICE_SCALE);
    assert amount * price < usd * PRICE_SCALE + PRICE_SCALE;
    QuotOfNonNegative(usd * PRICE_SCALE, price);
    assert usd * PRICE_SCALE < back * price + price;
    assert (amount - back) * price == amount * price - back * price;
  }

  /** At a price of exactly $1.00 the round trip is exact. */
  lemma RoundTripAtParIsExact(amount: int)
    ensures FromUsd(ToUsd(amount, PRICE_SCALE), PRICE_SCALE) == amount
  {
    assert amount * PRICE_SCALE == amount * PRICE_SCALE;
    QuotOfMultiple(amount, PRICE_SCALE);
  }

  /** Below $1.00 a loss of more than one unit is possible: 3 units at $0.30
      are worth $0.0000009, which truncates to 0. */
  lemma RoundTripCanLoseMoreThanOneUnit()
    ensures FromUsd(ToUsd(3, 3_000_000), 3_000_000) == 0
  {
  }
}
