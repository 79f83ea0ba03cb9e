/**
 Liquidation amounts and pair selection (liquidationPlanner.ts). Prices are USD at the 1e18 scale,
 addresses are already canonical, and the conversion of a BigInt profit to a JS Number is a parameter
 about which only monotonicity and the preserved sign are known.
 */
module LiquidationPlanner {
  import opened Arithmetic
  import opened Ordered

  type Address = string

  datatype UserReserveData = UserReserveData(
    underlyingAsset: Address,
    currentATokenBalance: nat,
    currentStableDebt: nat,
    currentVariableDebt: nat,
    usageAsCollateralEnabled: bool)

  /** The prefetched data; an absent key is a failed fetch. A bonus is the on-chain 10000-based value. */
  datatype Market = Market(
    prices: map<Address, nat>,
    decimals: map<Address, nat>,
    liquidationBonuses: map<Address, nat>)

  datatype PairScore = PairScore(
    debtReserve: UserReserveData,
    collateralReserve: UserReserveData,
    score: real,
    oracleScoreBigInt: int,
    debtUsd1e18: nat,
    collateralUsd1e18: nat,
    expectedCollateralOut: nat,
    debtToCover: nat,
    liquidationBonusBps: nat)

  datatype CandidatePlan = CandidatePlan(
    debtAsset: Address,
    collateralAsset: Address,
    debtToCover: nat,
    expectedCollateralOut: nat,
    oracleScore: int,
    debtAssetDecimals: nat,
    collateralAssetDecimals: nat,
    liquidationBonusBps: nat)

  datatype LiquidationPlan = LiquidationPlan(
    user: string,
    debtAsset: Address,
    collateralAsset: Address,
    debtToCover: nat,
    expectedCollateralOut: nat,
    debtAssetDecimals: nat,
    collateralAssetDecimals: nat,
    liquidationBonusBps: nat,
    profitUsd: real)

  const TOP_N_PAIRS: nat := 3
  const CONSERVATIVE_HAIRCUT_BPS: nat := 200
  const CLOSE_FACTOR_BPS: nat := 5000

  // ----- Amounts -----

  function DenormalizeFrom18(amount1e18: nat, decimals: nat): nat {
    if decimals == 18 then amount1e18
    else if decimals < 18 then DivNonNegative(amount1e18, Pow10(18 - decimals)); amount1e18 / Pow10(18 - decimals)
    else amount1e18 * Pow10(decimals - 18)
  }

  function CalculateUsdValue(amount: nat, decimals: nat, priceUsd1e18: nat): nat {
    NormalizeTo18(amount, decimals) * priceUsd1e18 / WAD
  }

  /** The collateral for a debt of value `v`, with the bonus, in token units. */
  function CollateralFor(v: nat, collateralDecimals: nat, collateralPriceUsd1e18: nat, liquidationBonusBps: nat): nat
    requires collateralPriceUsd1e18 > 0
  {
    DivNonNegative(v * WAD, collateralPriceUsd1e18);
    var collateralAmount1e18: nat := v * WAD / collateralPriceUsd1e18;
    var collateralWithBonus1e18 := collateralAmount1e18 * (BPS + liquidationBonusBps) / BPS;
    DenormalizeFrom18(collateralWithBonus1e18, collateralDecimals)
  }

  function CalculateExpectedCollateral(debtToCover: nat, debtDecimals: nat, debtPriceUsd1e18: nat,
                                       collateralDecimals: nat, collateralPriceUsd1e18: nat,
                                       liquidationBonusBps: nat): nat
    requires collateralPriceUsd1e18 > 0
  {
    var debtToCover1e18 := NormalizeTo18(debtToCover, debtDecimals);
    var debtValueUsd1e18 := debtToCover1e18 * debtPriceUsd1e18 / WAD;
    CollateralFor(debtValueUsd1e18, collateralDecimals, collateralPriceUsd1e18, liquidationBonusBps)
  }

  /** One unit of the collateral token, at the 1e18 scale; 1 for tokens with 18 or more decimals. */
  function UnitOf(decimals: nat): (unit: nat)
    ensures unit >= 1
  {
    if decimals <= 18 then Pow10(18 - decimals) else 1
  }

  /** Converting to token units and back loses less than one unit and never gains. */
  lemma RoundTripThroughTokenUnits(amount1e18: nat, decimals: nat)
    ensures var back := NormalizeTo18(DenormalizeFrom18(amount1e18, decimals), decimals);
      back <= amount1e18 < back + UnitOf(decimals)
  {
    if decimals < 18 {
      FloorBounds(amount1e18, Pow10(18 - decimals));
    } else if decimals > 18 {
      MulThenDiv(amount1e18, Pow10(decimals - 18));
    }
  }

  /** Three of the four chained floors, upper side: the first amount prices `c` at no more than the value plus bonus. */
  lemma SeizedNotAbove(v: nat, a: nat, c: nat, pc: nat, factor: nat)
    requires a * pc <= v * WAD
    requires BPS * c <= a * factor
    ensures BPS * (c * pc) <= (v * factor) * WAD
  {
    calc {
      BPS * (c * pc);
    == (BPS * c) * pc;
    <= { MulMono(BPS * c, a * factor, pc); }
      (a * factor) * pc;
    == { Swap(a, factor, pc); }
      (a * pc) * factor;
    <= { MulMono(a * pc, v * WAD, factor); }
      (v * WAD) * factor;
    == { Swap(v, WAD, factor); }
      (v * factor) * WAD;
    }
  }

  lemma Swap(x: int, y: int, z: int)
    ensures (x * y) * z == (x * z) * y
  {
  }

  /** The chained floors as inequalities: the value seized never exceeds value plus bonus. */
  lemma FloorChainUpper(v: nat, a: nat, b: nat, c: nat, u: nat, pc: nat, bonus: nat)
    requires a * pc <= v * WAD
    requires BPS * b <= a * (BPS + bonus)
    requires c <= b
    requires u * WAD <= c * pc
    ensures BPS * u <= v * (BPS + bonus)
  {
    SeizedNotAbove(v, a, c, pc, BPS + bonus);
    assert (BPS * u) * WAD <= (v * (BPS + bonus)) * WAD;
    MulCancel(BPS * u, v * (BPS + bonus), WAD);
  }

  lemma ValueBelowNextAmount(v: nat, a: nat, pc: nat, factor: nat)
    requires v * WAD < (a + 1) * pc && factor > 0
    ensures (v * factor) * WAD < ((a + 1) * factor) * pc
  {
    MulStrict(v * WAD, (a + 1) * pc, factor);
    Swap(v, WAD, factor);
    Swap(a + 1, pc, factor);
  }

  lemma NextAmountBound(a: nat, b: nat, c: nat, bonus: nat, unit: nat)
    requires a * (BPS + bonus) < BPS * b + BPS
    requires b < c + unit
    ensures (a + 1) * (BPS + bonus) <= BPS * c + (BPS * (unit + 1) + bonus)
  {
    assert (a + 1) * (BPS + bonus) == a * (BPS + bonus) + BPS + bonus;
  }

  lemma PricedBound(c: nat, u: nat, pc: nat, rest: nat)
    requires c * pc < (u + 1) * WAD
    ensures (BPS * c + rest) * pc <= (BPS * u + BPS) * WAD + pc * rest
  {
    assert (BPS * c + rest) * pc == BPS * (c * pc) + pc * rest;
  }

  lemma FloorChainLower(v: nat, a: nat, b: nat, c: nat, u: nat, pc: nat, bonus: nat, unit: nat)
    requires v * WAD < (a + 1) * pc
    requires a * (BPS + bonus) < BPS * b + BPS
    requires b < c + unit
    requires c * pc < (u + 1) * WAD
    ensures (v * (BPS + bonus)) * WAD < (BPS * u + BPS) * WAD + pc * (BPS * (unit + 1) + bonus)
  {
    var rest := BPS * (unit + 1) + bonus;
    ValueBelowNextAmount(v, a, pc, BPS + bonus);
    NextAmountBound(a, b, c, bonus, unit);
    MulMono((a + 1) * (BPS + bonus), BPS * c + rest, pc);
    PricedBound(c, u, pc, rest);
  }

  /**
   Two-sided rounding bound. With V the debt's USD value, U the USD value of the computed collateral
   and b the bonus: U never exceeds V(1+b), and falls short of it by less than
   pc (unit + 1 + b) / 1e18 + 1, both stated times 10000 (and 1e18).
   */
  lemma CollateralValueBounds(debtToCover: nat, debtDecimals: nat, debtPrice: nat,
                              collateralDecimals: nat, collateralPrice: nat, bonus: nat)
    requires collateralPrice > 0
    ensures
      var V := CalculateUsdValue(debtToCover, debtDecimals, debtPrice);
      var out := CalculateExpectedCollateral(debtToCover, debtDecimals, debtPrice,
                                             collateralDecimals, collateralPrice, bonus);
      var U := CalculateUsdValue(out, collateralDecimals, collateralPrice);
      && BPS * U <= V * (BPS + bonus)
      && (V * (BPS + bonus) - BPS * U) * WAD
         < BPS * WAD + collateralPrice * (BPS * (UnitOf(collateralDecimals) + 1) + bonus)
  {
    var v := CalculateUsdValue(debtToCover, debtDecimals, debtPrice);
    SeizedValueBounds(v, collateralDecimals, collateralPrice, bonus);
  }

  lemma SeizedValueBounds(v: nat, collateralDecimals: nat, collateralPrice: nat, bonus: nat)
    requires collateralPrice > 0
    ensures
      var U := CalculateUsdValue(CollateralFor(v, collateralDecimals, collateralPrice, bonus),
                                 collateralDecimals, collateralPrice);
      && BPS * U <= v * (BPS + bonus)
      && (v * (BPS + bonus) - BPS * U) * WAD
         < BPS * WAD + collateralPrice * (BPS * (UnitOf(collateralDecimals) + 1) + bonus)
  {
    FloorBounds(v * WAD, collateralPrice);
    DivNonNegative(v * WAD, collateralPrice);
    var a: nat := v * WAD / collateralPrice;
    FloorBounds(a * (BPS + bonus), BPS);
    var b: nat := a * (BPS + bonus) / BPS;
    RoundTripThroughTokenUnits(b, collateralDecimals);
    var c := NormalizeTo18(DenormalizeFrom18(b, collateralDecimals), collateralDecimals);
    FloorBounds(c * collateralPrice, WAD);
    var u: nat := c * collateralPrice / WAD;
    assert a * collateralPrice <= v * WAD < (a + 1) * collateralPrice by {
      assert (a + 1) * collateralPrice == a * collateralPrice + collateralPrice;
    }
    FloorChainUpper(v, a, b, c, u, collateralPrice, bonus);
    FloorChainLower(v, a, b, c, u, collateralPrice, bonus, UnitOf(collateralDecimals));
  }

  // ----- Scoring one pair -----

  function ConservativeProfit(profitUsd1e18: int): int {
    profitUsd1e18 - TruncDiv(profitUsd1e18 * CONSERVATIVE_HAIRCUT_BPS, BPS)
  }

  /** The haircut keeps the sign and the order of profits, and takes 2% of a gain, rounded down. */
  lemma HaircutKeepsSignAndOrder(p: int, q: int)
    ensures ConservativeProfit(p) > 0 <==> p > 0
    ensures p <= q ==> ConservativeProfit(p) <= ConservativeProfit(q)
    ensures p >= 0 ==> p * 9800 <= ConservativeProfit(p) * BPS < p * 9800 + BPS
  {
    forall x | x >= 0
      ensures x * 9800 <= ConservativeProfit(x) * BPS < x * 9800 + BPS
      ensures ConservativeProfit(-x) == -ConservativeProfit(x)
    {
      FloorBounds(x * CONSERVATIVE_HAIRCUT_BPS, BPS);
    }
    if p < 0 { assert ConservativeProfit(p) == -ConservativeProfit(-p); }
    if q < 0 { assert ConservativeProfit(q) == -ConservativeProfit(-q); }
  }

  /** `Number(x) / 1e18`, as far as the selection depends on it. */
  ghost predicate NumberLike(toNumber: int -> real) {
    && (forall x, y :: x <= y ==> toNumber(x) <= toNumber(y))
    && (forall x :: toNumber(x) > 0.0 <==> x > 0)
  }

  function DebtToCover(debt: UserReserveData): nat {
    (debt.currentVariableDebt + debt.currentStableDebt) * CLOSE_FACTOR_BPS / BPS
  }

  /** The bonus above 100%, or 5% when the reserve configuration has none. */
  function BonusBps(liquidationBonus: nat): nat {
    if liquidationBonus > 10000 then liquidationBonus - 10000 else 500
  }

  /** The fetches the debt side needs; a zero price is as good as none. */
  predicate DebtPriced(debt: UserReserveData, m: Market) {
    && debt.underlyingAsset in m.prices && m.prices[debt.underlyingAsset] != 0
    && debt.underlyingAsset in m.decimals
  }

  predicate CollateralPriced(collateral: UserReserveData, m: Market) {
    && collateral.underlyingAsset in m.prices && m.prices[collateral.underlyingAsset] != 0
    && collateral.underlyingAsset in m.decimals
    && collateral.underlyingAsset in m.liquidationBonuses
  }

  predicate Priced(debt: UserReserveData, collateral: UserReserveData, m: Market) {
    DebtPriced(debt, m) && CollateralPriced(collateral, m)
  }

  function Seized(debt: UserReserveData, collateral: UserReserveData, m: Market): nat
    requires Priced(debt, collateral, m)
  {
    var d, c := debt.underlyingAsset, collateral.underlyingAsset;
    CalculateExpectedCollateral(DebtToCover(debt), m.decimals[d], m.prices[d],
                                m.decimals[c], m.prices[c], BonusBps(m.liquidationBonuses[c]))
  }

  function DebtUsd(debt: UserReserveData, m: Market): nat
    requires DebtPriced(debt, m)
  {
    CalculateUsdValue(DebtToCover(debt), m.decimals[debt.underlyingAsset], m.prices[debt.underlyingAsset])
  }

  function SeizedUsd(debt: UserReserveData, collateral: UserReserveData, m: Market): nat
    requires Priced(debt, collateral, m)
  {
    CalculateUsdValue(Seized(debt, collateral, m), m.decimals[collateral.underlyingAsset],
                      m.prices[collateral.underlyingAsset])
  }

  /**
   What makes a pair admissible: all data present, the seized amount fits the user's balance, and
   the seized collateral is worth more than the debt it covers.
   */
  predicate Admissible(debt: UserReserveData, collateral: UserReserveData, m: Market) {
    && Priced(debt, collateral, m)
    && Seized(debt, collateral, m) <= collateral.currentATokenBalance
    && SeizedUsd(debt, collateral, m) > DebtUsd(debt, m)
  }

  function Score(debt: UserReserveData, collateral: UserReserveData, m: Market, toNumber: int -> real): (p: PairScore)
    requires Priced(debt, collateral, m)
  {
    var oracleScore := ConservativeProfit(SeizedUsd(debt, collateral, m) - DebtUsd(debt, m));
    PairScore(debt, collateral, toNumber(oracleScore), oracleScore,
              DebtUsd(debt, m), SeizedUsd(debt, collateral, m), Seized(debt, collateral, m),
              DebtToCover(debt), BonusBps(m.liquidationBonuses[collateral.underlyingAsset]))
  }

  // ----- The score as relations between inputs and amounts -----

  /** `usd` is what the amount is worth at the price, rounded down at the 1e18 scale. */
  ghost predicate IsUsdValue(amount: nat, decimals: nat, price: nat, usd: nat) {
    exists at18: nat :: IsScaled(amount, decimals, at18) && IsQuotient(usd, at18 * price, WAD)
  }

  /** A value at a price, rounded down at the 1e18 scale. */
  ghost predicate IsConverted(value: nat, price: nat, amount1e18: nat) {
    IsQuotient(amount1e18, value * WAD, price)
  }

  /** `out` token units are the amount at the 1e18 scale, rounded down. */
  ghost predicate IsTokenUnits(amount1e18: nat, decimals: nat, out: nat) {
    if decimals <= 18 then IsQuotient(out, amount1e18, Pow10(18 - decimals))
    else out == amount1e18 * Pow10(decimals - 18)
  }

  /** `out` units of the collateral are `value` at its price, then the bonus, then its decimals, each rounded down. */
  ghost predicate IsSeizure(value: nat, decimals: nat, price: nat, bonusBps: nat, out: nat) {
    exists plain: nat, withBonus: nat ::
      && IsConverted(value, price, plain)
      && IsQuotient(withBonus, plain * (10000 + bonusBps), 10000)
      && IsTokenUnits(withBonus, decimals, out)
  }

  /** 98% of a profit, rounded up. */
  ghost predicate IsHaircut(profit: int, score: int) {
    9800 * profit <= 10000 * score < 9800 * profit + 10000
  }

  /**
   `p` scores the pair: every amount follows from the reserves and from the two assets' own prices, decimals
   and bonus; the seizure fits the balance and is worth more than the debt it covers; and the score is the
   profit after the haircut.
   */
  ghost predicate ScoredFrom(p: PairScore, debt: UserReserveData, collateral: UserReserveData, m: Market,
                             toNumber: int -> real)
  {
    var d, c := debt.underlyingAsset, collateral.underlyingAsset;
    && p.debtReserve == debt && p.collateralReserve == collateral
    && d in m.prices && m.prices[d] > 0 && d in m.decimals
    && c in m.prices && m.prices[c] > 0 && c in m.decimals && c in m.liquidationBonuses
    && 2 * p.debtToCover <= debt.currentVariableDebt + debt.currentStableDebt < 2 * p.debtToCover + 2
    && p.liquidationBonusBps == (if m.liquidationBonuses[c] > 10000 then m.liquidationBonuses[c] - 10000 else 500)
    && IsUsdValue(p.debtToCover, m.decimals[d], m.prices[d], p.debtUsd1e18)
    && IsSeizure(p.debtUsd1e18, m.decimals[c], m.prices[c], p.liquidationBonusBps, p.expectedCollateralOut)
    && IsUsdValue(p.expectedCollateralOut, m.decimals[c], m.prices[c], p.collateralUsd1e18)
    && p.expectedCollateralOut <= collateral.currentATokenBalance
    && p.collateralUsd1e18 > p.debtUsd1e18
    && IsHaircut(p.collateralUsd1e18 - p.debtUsd1e18, p.oracleScoreBigInt)
    && p.score == toNumber(p.oracleScoreBigInt)
  }

  lemma UsdValueIsTheOne(amount: nat, decimals: nat, price: nat, usd: nat)
    ensures IsUsdValue(amount, decimals, price, usd) <==> usd == CalculateUsdValue(amount, decimals, price)
  {
    var scaled := NormalizeTo18(amount, decimals);
    ScaledIsTheOne(amount, decimals, scaled);
    DivIsQuotient(scaled * price, WAD);
    if IsUsdValue(amount, decimals, price, usd) {
      var at18: nat :| IsScaled(amount, decimals, at18) && IsQuotient(usd, at18 * price, WAD);
      ScaledIsTheOne(amount, decimals, at18);
      QuotientIsUnique(usd, scaled * price / WAD, scaled * price, WAD);
    }
  }

  lemma DenormalizedIsTheOne(amount1e18: nat, decimals: nat, out: nat)
    ensures IsTokenUnits(amount1e18, decimals, out) <==> out == DenormalizeFrom18(amount1e18, decimals)
  {
    if decimals <= 18 {
      DivIsQuotient(amount1e18, Pow10(18 - decimals));
      if IsQuotient(out, amount1e18, Pow10(18 - decimals)) {
        QuotientIsUnique(out, amount1e18 / Pow10(18 - decimals), amount1e18, Pow10(18 - decimals));
      }
    }
  }

  lemma SeizureIsTheOne(value: nat, decimals: nat, price: nat, bonusBps: nat, out: nat)
    requires price > 0
    ensures IsSeizure(value, decimals, price, bonusBps, out) <==> out == CollateralFor(value, decimals, price, bonusBps)
  {
    DivNonNegative(value * WAD, price);
    var a: nat := value * WAD / price;
    var b: nat := a * (BPS + bonusBps) / BPS;
    DivIsQuotient(value * WAD, price);
    DivIsQuotient(a * (BPS + bonusBps), BPS);
    DenormalizedIsTheOne(b, decimals, out);
    assert IsConverted(value, price, a);
    if IsSeizure(value, decimals, price, bonusBps, out) {
      var plain: nat, withBonus: nat :|
        && IsConverted(value, price, plain)
        && IsQuotient(withBonus, plain * (10000 + bonusBps), 10000)
        && IsTokenUnits(withBonus, decimals, out);
      QuotientIsUnique(plain, a, value * WAD, price);
      QuotientIsUnique(withBonus, b, a * (BPS + bonusBps), BPS);
    }
  }

  lemma HaircutIsTheOne(profit: int, score: int)
    requires profit > 0
    ensures IsHaircut(profit, score) <==> score == ConservativeProfit(profit)
  {
    HaircutKeepsSignAndOrder(profit, profit);
  }

  lemma ScoreIsScored(debt: UserReserveData, collateral: UserReserveData, m: Market, toNumber: int -> real)
    requires Admissible(debt, collateral, m)
    ensures ScoredFrom(Score(debt, collateral, m, toNumber), debt, collateral, m, toNumber)
  {
    var d, c := debt.underlyingAsset, collateral.underlyingAsset;
    var bonus := BonusBps(m.liquidationBonuses[c]);
    UsdValueIsTheOne(DebtToCover(debt), m.decimals[d], m.prices[d], DebtUsd(debt, m));
    SeizedFromDebtUsd(debt, collateral, m);
    SeizureIsTheOne(DebtUsd(debt, m), m.decimals[c], m.prices[c], bonus, Seized(debt, collateral, m));
    UsdValueIsTheOne(Seized(debt, collateral, m), m.decimals[c], m.prices[c], SeizedUsd(debt, collateral, m));
    var profit := SeizedUsd(debt, collateral, m) - DebtUsd(debt, m);
    HaircutIsTheOne(profit, ConservativeProfit(profit));
  }

  /** The amounts of a scored pair are those of `Score`, one after the other. */
  lemma ScoredAmounts(p: PairScore, debt: UserReserveData, collateral: UserReserveData, m: Market,
                      toNumber: int -> real)
    requires ScoredFrom(p, debt, collateral, m, toNumber)
    ensures p.debtToCover == DebtToCover(debt)
    ensures p.debtUsd1e18 == DebtUsd(debt, m)
    ensures p.expectedCollateralOut == Seized(debt, collateral, m)
    ensures p.collateralUsd1e18 == SeizedUsd(debt, collateral, m)
  {
    var d, c := debt.underlyingAsset, collateral.underlyingAsset;
    UsdValueIsTheOne(p.debtToCover, m.decimals[d], m.prices[d], p.debtUsd1e18);
    SeizedFromDebtUsd(debt, collateral, m);
    SeizureIsTheOne(p.debtUsd1e18, m.decimals[c], m.prices[c], p.liquidationBonusBps, p.expectedCollateralOut);
    UsdValueIsTheOne(p.expectedCollateralOut, m.decimals[c], m.prices[c], p.collateralUsd1e18);
  }

  /** An admissible pair's score is the one and only `p` that scores it. */
  lemma ScoreIsTheOne(p: PairScore, debt: UserReserveData, collateral: UserReserveData, m: Market,
                      toNumber: int -> real)
    ensures ScoredFrom(p, debt, collateral, m, toNumber)
       <==> Admissible(debt, collateral, m) && p == Score(debt, collateral, m, toNumber)
  {
    if ScoredFrom(p, debt, collateral, m, toNumber) {
      ScoredAmounts(p, debt, collateral, m, toNumber);
      HaircutIsTheOne(p.collateralUsd1e18 - p.debtUsd1e18, p.oracleScoreBigInt);
    }
    if Admissible(debt, collateral, m) {
      ScoreIsScored(debt, collateral, m, toNumber);
    }
  }

  lemma SeizedFromDebtUsd(debt: UserReserveData, collateral: UserReserveData, m: Market)
    requires Priced(debt, collateral, m)
    ensures var c := collateral.underlyingAsset;
      Seized(debt, collateral, m)
      == CollateralFor(DebtUsd(debt, m), m.decimals[c], m.prices[c], BonusBps(m.liquidationBonuses[c]))
  {
  }

  /** The two-sided rounding bound for a scored pair, with its own bonus and its collateral's own price. */
  lemma ScoredPairBounds(p: PairScore, debt: UserReserveData, collateral: UserReserveData, m: Market,
                         toNumber: int -> real)
    requires ScoredFrom(p, debt, collateral, m, toNumber)
    ensures var c := collateral.underlyingAsset;
      && 10000 * p.collateralUsd1e18 <= p.debtUsd1e18 * (10000 + p.liquidationBonusBps)
      && (p.debtUsd1e18 * (10000 + p.liquidationBonusBps) - 10000 * p.collateralUsd1e18) * WAD
         < 10000 * WAD + m.prices[c] * (10000 * (UnitOf(m.decimals[c]) + 1) + p.liquidationBonusBps)
  {
    var c := collateral.underlyingAsset;
    SeizureIsTheOne(p.debtUsd1e18, m.decimals[c], m.prices[c], p.liquidationBonusBps, p.expectedCollateralOut);
    UsdValueIsTheOne(p.expectedCollateralOut, m.decimals[c], m.prices[c], p.collateralUsd1e18);
    SeizedValueBounds(p.debtUsd1e18, m.decimals[c], m.prices[c], p.liquidationBonusBps);
  }

  /**
   A profitable pair covers a positive amount of debt, seizes a positive amount of collateral the
   user has, and covers half the debt, rounded down.
   */
  lemma AdmissiblePairsArePositive(debt: UserReserveData, collateral: UserReserveData, m: Market, toNumber: int -> real)
    requires Admissible(debt, collateral, m)
    requires NumberLike(toNumber)
    ensures var p := Score(debt, collateral, m, toNumber);
      && p.debtToCover > 0
      && 0 < p.expectedCollateralOut <= collateral.currentATokenBalance
      && p.debtToCover == (debt.currentVariableDebt + debt.currentStableDebt) / 2
      && p.oracleScoreBigInt > 0 && p.score > 0.0
  {
    HaircutKeepsSignAndOrder(SeizedUsd(debt, collateral, m) - DebtUsd(debt, m), 0);
    if Seized(debt, collateral, m) == 0 {
      NothingIsWorthNothing(m.decimals[collateral.underlyingAsset], m.prices[collateral.underlyingAsset]);
      assert false;
    }
    if DebtToCover(debt) == 0 {
      NoDebtSeizesNothing(debt, collateral, m);
      assert false;
    }
  }

  lemma NothingIsWorthNothing(decimals: nat, price: nat)
    ensures CalculateUsdValue(0, decimals, price) == 0
  {
    if decimals > 18 { MulThenDiv(0, Pow10(decimals - 18)); }
  }

  lemma NoDebtSeizesNothing(debt: UserReserveData, collateral: UserReserveData, m: Market)
    requires Priced(debt, collateral, m) && DebtToCover(debt) == 0
    ensures DebtUsd(debt, m) == SeizedUsd(debt, collateral, m) == 0
  {
    var d, c := debt.underlyingAsset, collateral.underlyingAsset;
    NothingIsWorthNothing(m.decimals[d], m.prices[d]);
    SeizedValueBounds(0, m.decimals[c], m.prices[c], BonusBps(m.liquidationBonuses[c]));
  }

  // ----- All pairs -----

  ghost function RowPairs(debt: UserReserveData, collaterals: seq<UserReserveData>, m: Market,
                          toNumber: int -> real): seq<PairScore>
  {
    if collaterals == [] then []
    else
      var c := collaterals[|collaterals| - 1];
      RowPairs(debt, collaterals[..|collaterals| - 1], m, toNumber)
      + if Admissible(debt, c, m) then [Score(debt, c, m, toNumber)] else []
  }

  /** The admissible pairs in the order the double loop meets them. */
  ghost function AllPairs(debts: seq<UserReserveData>, collaterals: seq<UserReserveData>, m: Market,
                          toNumber: int -> real): seq<PairScore>
  {
    if debts == [] then []
    else
      AllPairs(debts[..|debts| - 1], collaterals, m, toNumber)
      + RowPairs(debts[|debts| - 1], collaterals, m, toNumber)
  }

  /** The index pairs that are admissible; their number is what the result is measured against. */
  ghost function AdmissibleIndices(debts: seq<UserReserveData>, collaterals: seq<UserReserveData>,
                                   m: Market): set<(nat, nat)>
  {
    set i: nat, j: nat | 0 <= i < |debts| && 0 <= j < |collaterals| && Admissible(debts[i], collaterals[j], m)
      :: (i, j)
  }

  /** Index pairs in the order of the double loop: each of them later than all before it. */
  ghost predicate LoopOrder(order: seq<(nat, nat)>) {
    forall k, l :: 0 <= k < l < |order| ==>
      order[k].0 < order[l].0 || (order[k].0 == order[l].0 && order[k].1 < order[l].1)
  }

  /** One to one: the k-th score is that of the k-th index pair, which is admissible. */
  ghost predicate ScoresOf(ps: seq<PairScore>, order: seq<(nat, nat)>, debts: seq<UserReserveData>,
                           collaterals: seq<UserReserveData>, m: Market, toNumber: int -> real)
  {
    && |ps| == |order|
    && forall k :: 0 <= k < |ps| ==>
         && order[k] in AdmissibleIndices(debts, collaterals, m)
         && ps[k] == Score(debts[order[k].0], collaterals[order[k].1], m, toNumber)
  }

  lemma ScoresOfBoth(ps: seq<PairScore>, order: seq<(nat, nat)>, qs: seq<PairScore>, more: seq<(nat, nat)>,
                     debts: seq<UserReserveData>, collaterals: seq<UserReserveData>, m: Market, toNumber: int -> real)
    requires ScoresOf(ps, order, debts, collaterals, m, toNumber)
    requires ScoresOf(qs, more, debts, collaterals, m, toNumber)
    ensures ScoresOf(ps + qs, order + more, debts, collaterals, m, toNumber)
  {
  }

  lemma {:induction false} RowInLoopOrder(debts: seq<UserReserveData>, collaterals: seq<UserReserveData>, m: Market,
                                          toNumber: int -> real, i: nat, n: nat)
    returns (order: seq<(nat, nat)>)
    requires i < |debts| && n <= |collaterals|
    ensures LoopOrder(order)
    ensures ScoresOf(RowPairs(debts[i], collaterals[..n], m, toNumber), order, debts, collaterals, m, toNumber)
    ensures forall ix :: ix in order ==> ix.0 == i && ix.1 < n
    ensures forall j: nat :: j < n && Admissible(debts[i], collaterals[j], m) ==> (i, j) in order
  {
    if n == 0 {
      order := [];
    } else {
      var before := RowInLoopOrder(debts, collaterals, m, toNumber, i, n - 1);
      assert collaterals[..n][..n - 1] == collaterals[..n - 1];
      assert forall k :: 0 <= k < |before| ==> before[k] in before;
      order := before + if Admissible(debts[i], collaterals[n - 1], m) then [(i, n - 1)] else [];
    }
  }

  lemma {:induction false} RowsInLoopOrder(debts: seq<UserReserveData>, collaterals: seq<UserReserveData>, m: Market,
                                           toNumber: int -> real, n: nat)
    returns (order: seq<(nat, nat)>)
    requires n <= |debts|
    ensures LoopOrder(order)
    ensures ScoresOf(AllPairs(debts[..n], collaterals, m, toNumber), order, debts, collaterals, m, toNumber)
    ensures forall ix :: ix in order ==> ix.0 < n
    ensures forall ix :: ix in AdmissibleIndices(debts, collaterals, m) && ix.0 < n ==> ix in order
  {
    if n == 0 {
      order := [];
    } else {
      var before := RowsInLoopOrder(debts, collaterals, m, toNumber, n - 1);
      var row := RowInLoopOrder(debts, collaterals, m, toNumber, n - 1, |collaterals|);
      assert debts[..n][..n - 1] == debts[..n - 1] && collaterals[..|collaterals|] == collaterals;
      assert forall k :: 0 <= k < |before| ==> before[k] in before;
      assert forall k :: 0 <= k < |row| ==> row[k] in row;
      order := before + row;
      ScoresOfBoth(AllPairs(debts[..n - 1], collaterals, m, toNumber), before,
                   RowPairs(debts[n - 1], collaterals, m, toNumber), row, debts, collaterals, m, toNumber);
    }
  }

  /**
   The double loop scores every admissible pair, exactly once, in loop order: its scores correspond one to
   one to the admissible index pairs.
   */
  lemma PairsInLoopOrder(debts: seq<UserReserveData>, collaterals: seq<UserReserveData>, m: Market,
                         toNumber: int -> real)
    returns (order: seq<(nat, nat)>)
    ensures LoopOrder(order) && Distinct(order)
    ensures forall ix :: ix in order <==> ix in AdmissibleIndices(debts, collaterals, m)
    ensures |order| == |AdmissibleIndices(debts, collaterals, m)|
    ensures ScoresOf(AllPairs(debts, collaterals, m, toNumber), order, debts, collaterals, m, toNumber)
  {
    order := RowsInLoopOrder(debts, collaterals, m, toNumber, |debts|);
    assert debts[..|debts|] == debts;
    DistinctCount(order);
    assert (set ix | ix in order) == AdmissibleIndices(debts, collaterals, m);
  }

  /** The scores of all pairs that can be scored, in the order of the double loop, over the inputs alone. */
  ghost predicate AllScored(ps: seq<PairScore>, debts: seq<UserReserveData>, collaterals: seq<UserReserveData>,
                            m: Market, toNumber: int -> real)
  {
    exists order :: AreScored(ps, order, debts, collaterals, m, toNumber)
  }

  ghost predicate AreScored(ps: seq<PairScore>, order: seq<(nat, nat)>, debts: seq<UserReserveData>,
                            collaterals: seq<UserReserveData>, m: Market, toNumber: int -> real)
  {
    && |ps| == |order| && LoopOrder(order)
    && (forall k :: 0 <= k < |order| ==>
          && order[k].0 < |debts| && order[k].1 < |collaterals|
          && ScoredFrom(ps[k], debts[order[k].0], collaterals[order[k].1], m, toNumber))
    && (forall i: nat, j: nat, p :: i < |debts| && j < |collaterals| ==>
          ScoredFrom(p, debts[i], collaterals[j], m, toNumber) ==> (i, j) in order)
  }

  lemma AllPairsAreScored(debts: seq<UserReserveData>, collaterals: seq<UserReserveData>, m: Market,
                          toNumber: int -> real)
    ensures AllScored(AllPairs(debts, collaterals, m, toNumber), debts, collaterals, m, toNumber)
  {
    var ps := AllPairs(debts, collaterals, m, toNumber);
    var order := PairsInLoopOrder(debts, collaterals, m, toNumber);
    forall k | 0 <= k < |order|
      ensures order[k].0 < |debts| && order[k].1 < |collaterals|
      ensures ScoredFrom(ps[k], debts[order[k].0], collaterals[order[k].1], m, toNumber)
    {
      ScoreIsTheOne(ps[k], debts[order[k].0], collaterals[order[k].1], m, toNumber);
    }
    forall i: nat, j: nat, p | i < |debts| && j < |collaterals|
      && ScoredFrom(p, debts[i], collaterals[j], m, toNumber)
      ensures (i, j) in order
    {
      ScoreIsTheOne(p, debts[i], collaterals[j], m, toNumber);
      assert (i, j) in AdmissibleIndices(debts, collaterals, m);
    }
    assert AreScored(ps, order, debts, collaterals, m, toNumber);
  }

  // ----- The selection -----

  function ByScore(): PairScore -> real { (p: PairScore) => p.score }

  ghost function TopPairs(debts: seq<UserReserveData>, collaterals: seq<UserReserveData>, m: Market,
                          toNumber: int -> real): seq<PairScore>
  {
    var sorted := SortDesc(AllPairs(debts, collaterals, m, toNumber), ByScore());
    if |sorted| <= TOP_N_PAIRS then sorted else sorted[..TOP_N_PAIRS]
  }

  /** The score of an index pair; irrelevant where there is none. */
  ghost function KeyAt(debts: seq<UserReserveData>, collaterals: seq<UserReserveData>, m: Market,
                       toNumber: int -> real): ((nat, nat)) -> real
  {
    (ix: (nat, nat)) =>
      if ix in AdmissibleIndices(debts, collaterals, m) then Score(debts[ix.0], collaterals[ix.1], m, toNumber).score
      else 0.0
  }

  lemma {:induction false} PlaceKeepsScores(ps: seq<PairScore>, order: seq<(nat, nat)>, p: PairScore, ix: (nat, nat),
                                            debts: seq<UserReserveData>, collaterals: seq<UserReserveData>,
                                            m: Market, toNumber: int -> real)
    requires ScoresOf(ps, order, debts, collaterals, m, toNumber)
    requires ScoresOf([p], [ix], debts, collaterals, m, toNumber)
    ensures ScoresOf(Place(ps, p, ByScore()), Place(order, ix, KeyAt(debts, collaterals, m, toNumber)),
                     debts, collaterals, m, toNumber)
  {
    assert [p][0] == p && [ix][0] == ix;
    if ps == [] || ps[|ps| - 1].score >= p.score {
    } else {
      PlaceKeepsScores(ps[..|ps| - 1], order[..|ps| - 1], p, ix, debts, collaterals, m, toNumber);
    }
  }

  /** Sorting scores and sorting their index pairs by score is the same. */
  lemma {:induction false} SortKeepsScores(ps: seq<PairScore>, order: seq<(nat, nat)>, debts: seq<UserReserveData>,
                                           collaterals: seq<UserReserveData>, m: Market, toNumber: int -> real)
    requires ScoresOf(ps, order, debts, collaterals, m, toNumber)
    ensures ScoresOf(SortDesc(ps, ByScore()), SortDesc(order, KeyAt(debts, collaterals, m, toNumber)),
                     debts, collaterals, m, toNumber)
  {
    if ps == [] {
    } else {
      var last := |ps| - 1;
      SortKeepsScores(ps[..last], order[..last], debts, collaterals, m, toNumber);
      PlaceKeepsScores(SortDesc(ps[..last], ByScore()), SortDesc(order[..last], KeyAt(debts, collaterals, m, toNumber)),
                       ps[last], order[last], debts, collaterals, m, toNumber);
    }
  }

  /** All admissible pairs, best first, as scores and as index pairs. */
  lemma SortedPairs(debts: seq<UserReserveData>, collaterals: seq<UserReserveData>, m: Market, toNumber: int -> real)
    returns (order: seq<(nat, nat)>)
    ensures Distinct(order) && forall ix :: ix in order <==> ix in AdmissibleIndices(debts, collaterals, m)
    ensures |order| == |AdmissibleIndices(debts, collaterals, m)|
    ensures var sorted := SortDesc(AllPairs(debts, collaterals, m, toNumber), ByScore());
      Descending(sorted, ByScore()) && ScoresOf(sorted, order, debts, collaterals, m, toNumber)
  {
    var inLoop := PairsInLoopOrder(debts, collaterals, m, toNumber);
    var all := AllPairs(debts, collaterals, m, toNumber);
    order := SortDesc(inLoop, KeyAt(debts, collaterals, m, toNumber));
    SortKeepsDistinct(inLoop, KeyAt(debts, collaterals, m, toNumber));
    SortKeepsScores(all, inLoop, debts, collaterals, m, toNumber);
    SortDescSorts(all, ByScore());
  }

  lemma TopIsACut(debts: seq<UserReserveData>, collaterals: seq<UserReserveData>, m: Market, toNumber: int -> real)
    returns (k: nat)
    ensures var sorted := SortDesc(AllPairs(debts, collaterals, m, toNumber), ByScore());
      && k == (if |sorted| < TOP_N_PAIRS then |sorted| else TOP_N_PAIRS)
      && TopPairs(debts, collaterals, m, toNumber) == sorted[..k]
  {
    k := |TopPairs(debts, collaterals, m, toNumber)|;
  }

  /** The law below in terms of `Score`: min(3, n) of the n admissible pairs, and none left out scores higher. */
  lemma TopPairsByIndex(debts: seq<UserReserveData>, collaterals: seq<UserReserveData>, m: Market,
                        toNumber: int -> real)
    returns (chosen: seq<(nat, nat)>)
    ensures var n := |AdmissibleIndices(debts, collaterals, m)|;
      |TopPairs(debts, collaterals, m, toNumber)| == (if n < TOP_N_PAIRS then n else TOP_N_PAIRS)
    ensures Descending(TopPairs(debts, collaterals, m, toNumber), ByScore())
    ensures Distinct(chosen)
    ensures ScoresOf(TopPairs(debts, collaterals, m, toNumber), chosen, debts, collaterals, m, toNumber)
    ensures forall ix :: ix in AdmissibleIndices(debts, collaterals, m) && ix !in chosen ==>
      OutrankedBy(Score(debts[ix.0], collaterals[ix.1], m, toNumber), TopPairs(debts, collaterals, m, toNumber))
  {
    var order := SortedPairs(debts, collaterals, m, toNumber);
    var k := TopIsACut(debts, collaterals, m, toNumber);
    chosen := order[..k];
    CutKeepsTheBest(SortDesc(AllPairs(debts, collaterals, m, toNumber), ByScore()), order, k,
                    debts, collaterals, m, toNumber);
  }

  /**
   The law of the selection, over the inputs alone. The list is at most three scores, best first, of
   different index pairs, each computed as `ScoredFrom` says; and any other pair that can be scored at all
   scores no higher than any of the three, which are then all there.
   */
  ghost predicate BestPairs(top: seq<PairScore>, debts: seq<UserReserveData>, collaterals: seq<UserReserveData>,
                            m: Market, toNumber: int -> real)
  {
    exists chosen :: AreBest(top, chosen, debts, collaterals, m, toNumber)
  }

  ghost predicate AreBest(top: seq<PairScore>, chosen: seq<(nat, nat)>, debts: seq<UserReserveData>,
                          collaterals: seq<UserReserveData>, m: Market, toNumber: int -> real)
  {
    && |top| == |chosen| <= 3
    && (forall k, l :: 0 <= k < l < |chosen| ==> chosen[k] != chosen[l] && top[k].score >= top[l].score)
    && (forall k :: 0 <= k < |chosen| ==>
          && chosen[k].0 < |debts| && chosen[k].1 < |collaterals|
          && ScoredFrom(top[k], debts[chosen[k].0], collaterals[chosen[k].1], m, toNumber))
    && (forall i: nat, j: nat, p :: i < |debts| && j < |collaterals| && (i, j) !in chosen ==>
          ScoredFrom(p, debts[i], collaterals[j], m, toNumber) ==>
            |top| == 3 && forall q :: q in top ==> p.score <= q.score)
  }

  /** The selected pairs obey the law. */
  lemma TopPairsAreTheBest(debts: seq<UserReserveData>, collaterals: seq<UserReserveData>, m: Market,
                           toNumber: int -> real)
    ensures BestPairs(TopPairs(debts, collaterals, m, toNumber), debts, collaterals, m, toNumber)
  {
    var top := TopPairs(debts, collaterals, m, toNumber);
    var chosen := TopPairsByIndex(debts, collaterals, m, toNumber);
    forall k, l | 0 <= k < l < |chosen| ensures chosen[k] != chosen[l] && top[k].score >= top[l].score {
      assert ByScore()(top[k]) >= ByScore()(top[l]);
    }
    forall k | 0 <= k < |chosen|
      ensures chosen[k].0 < |debts| && chosen[k].1 < |collaterals|
      ensures ScoredFrom(top[k], debts[chosen[k].0], collaterals[chosen[k].1], m, toNumber)
    {
      ScoreIsTheOne(top[k], debts[chosen[k].0], collaterals[chosen[k].1], m, toNumber);
    }
    forall i: nat, j: nat, p | i < |debts| && j < |collaterals| && (i, j) !in chosen
      && ScoredFrom(p, debts[i], collaterals[j], m, toNumber)
      ensures |top| == 3 && forall q :: q in top ==> p.score <= q.score
    {
      ScoreIsTheOne(p, debts[i], collaterals[j], m, toNumber);
      assert (i, j) in AdmissibleIndices(debts, collaterals, m);
      OmittedMeansFull(chosen, (i, j), debts, collaterals, m);
    }
    assert AreBest(top, chosen, debts, collaterals, m, toNumber);
  }

  /** A pair that no other scores above; none exactly if no pair can be scored. */
  ghost predicate IsBestPair(best: Option<PairScore>, debts: seq<UserReserveData>, collaterals: seq<UserReserveData>,
                             m: Market, toNumber: int -> real)
  {
    && (best.Some? ==>
          && best.value.debtReserve in debts && best.value.collateralReserve in collaterals
          && ScoredFrom(best.value, best.value.debtReserve, best.value.collateralReserve, m, toNumber))
    && (forall i, j, p :: 0 <= i < |debts| && 0 <= j < |collaterals| ==>
          ScoredFrom(p, debts[i], collaterals[j], m, toNumber) ==> best.Some? && p.score <= best.value.score)
  }

  lemma ScoredOnce(p: PairScore, q: PairScore, debt: UserReserveData, collateral: UserReserveData, m: Market,
                   toNumber: int -> real)
    requires ScoredFrom(p, debt, collateral, m, toNumber) && ScoredFrom(q, debt, collateral, m, toNumber)
    ensures p == q
  {
    ScoreIsTheOne(p, debt, collateral, m, toNumber);
    ScoreIsTheOne(q, debt, collateral, m, toNumber);
  }

  lemma NoneAboveTheFirst(top: seq<PairScore>, chosen: seq<(nat, nat)>, i: nat, j: nat, p: PairScore,
                          debts: seq<UserReserveData>, collaterals: seq<UserReserveData>, m: Market,
                          toNumber: int -> real)
    requires AreBest(top, chosen, debts, collaterals, m, toNumber)
    requires i < |debts| && j < |collaterals| && ScoredFrom(p, debts[i], collaterals[j], m, toNumber)
    ensures top != [] && p.score <= top[0].score
  {
    if (i, j) in chosen {
      var k :| 0 <= k < |chosen| && chosen[k] == (i, j);
      ScoredOnce(p, top[k], debts[i], collaterals[j], m, toNumber);
    } else {
      assert top[0] in top;
    }
  }

  lemma FirstOfTheBest(debts: seq<UserReserveData>, collaterals: seq<UserReserveData>, m: Market,
                       toNumber: int -> real, best: Option<PairScore>)
    requires var top := TopPairs(debts, collaterals, m, toNumber); best == if top == [] then None else Some(top[0])
    ensures IsBestPair(best, debts, collaterals, m, toNumber)
  {
    var top := TopPairs(debts, collaterals, m, toNumber);
    TopPairsAreTheBest(debts, collaterals, m, toNumber);
    var chosen :| AreBest(top, chosen, debts, collaterals, m, toNumber);
    forall i: nat, j: nat, p | i < |debts| && j < |collaterals|
      && ScoredFrom(p, debts[i], collaterals[j], m, toNumber)
      ensures best.Some? && p.score <= best.value.score
    {
      NoneAboveTheFirst(top, chosen, i, j, p, debts, collaterals, m, toNumber);
    }
  }

  lemma OmittedMeansFull(chosen: seq<(nat, nat)>, ix: (nat, nat), debts: seq<UserReserveData>,
                         collaterals: seq<UserReserveData>, m: Market)
    requires Distinct(chosen) && forall x :: x in chosen ==> x in AdmissibleIndices(debts, collaterals, m)
    requires ix in AdmissibleIndices(debts, collaterals, m) && ix !in chosen
    ensures |chosen| < |AdmissibleIndices(debts, collaterals, m)|
  {
    var all, these := AdmissibleIndices(debts, collaterals, m), set x | x in chosen;
    DistinctCount(chosen);
    assert these <= all - {ix};
    SubsetIsSmaller(these, all - {ix});
  }

  lemma SubsetIsSmaller<T>(a: set<T>, b: set<T>)
    requires a <= b
    ensures |a| <= |b|
    decreases |a|
  {
    if a != {} {
      var x :| x in a;
      SubsetIsSmaller(a - {x}, b - {x});
    }
  }

  lemma CutKeepsTheBest(sorted: seq<PairScore>, order: seq<(nat, nat)>, k: nat, debts: seq<UserReserveData>,
                        collaterals: seq<UserReserveData>, m: Market, toNumber: int -> real)
    requires k <= |sorted| && Descending(sorted, ByScore())
    requires ScoresOf(sorted, order, debts, collaterals, m, toNumber) && Distinct(order)
    ensures Descending(sorted[..k], ByScore()) && Distinct(order[..k])
    ensures ScoresOf(sorted[..k], order[..k], debts, collaterals, m, toNumber)
    ensures forall ix :: ix in order && ix !in order[..k] ==>
      && ix in AdmissibleIndices(debts, collaterals, m)
      && OutrankedBy(Score(debts[ix.0], collaterals[ix.1], m, toNumber), sorted[..k])
  {
    forall ix | ix in order && ix !in order[..k]
      ensures ix in AdmissibleIndices(debts, collaterals, m)
      ensures OutrankedBy(Score(debts[ix.0], collaterals[ix.1], m, toNumber), sorted[..k])
    {
      assert order == order[..k] + order[k..];
      var l :| k <= l < |order| && order[l] == ix;
      LaterIsOutranked(sorted, k, l);
    }
  }

  /** No score of `top` is below `p`'s. */
  ghost predicate OutrankedBy(p: PairScore, top: seq<PairScore>) {
    forall q :: q in top ==> p.score <= q.score
  }

  lemma LaterIsOutranked(sorted: seq<PairScore>, k: nat, l: nat)
    requires k <= l < |sorted| && Descending(sorted, ByScore())
    ensures OutrankedBy(sorted[l], sorted[..k])
  {
    forall q | q in sorted[..k] ensures sorted[l].score <= q.score {
      var i :| 0 <= i < k && sorted[i] == q;
      assert ByScore()(sorted[i]) >= ByScore()(sorted[l]);
    }
  }

  /** What a selected pair guarantees: see `AdmissiblePairsArePositive`. */
  ghost predicate PositiveFittingHalf(p: PairScore) {
    && p.debtToCover > 0
    && 0 < p.expectedCollateralOut <= p.collateralReserve.currentATokenBalance
    && p.debtToCover == (p.debtReserve.currentVariableDebt + p.debtReserve.currentStableDebt) / 2
    && p.score > 0.0 && p.oracleScoreBigInt > 0
  }

  /** Every selected pair is the score of an admissible pair: positive, fitting, half the debt. */
  lemma TopPairsAreAdmissible(debts: seq<UserReserveData>, collaterals: seq<UserReserveData>, m: Market,
                              toNumber: int -> real, p: PairScore)
    requires NumberLike(toNumber)
    requires p in TopPairs(debts, collaterals, m, toNumber)
    ensures ScoredFrom(p, p.debtReserve, p.collateralReserve, m, toNumber)
    ensures p.debtReserve in debts && p.collateralReserve in collaterals
    ensures PositiveFittingHalf(p)
    ensures Priced(p.debtReserve, p.collateralReserve, m)
  {
    var chosen := TopPairsByIndex(debts, collaterals, m, toNumber);
    var k :| 0 <= k < |chosen| && TopPairs(debts, collaterals, m, toNumber)[k] == p;
    ScoreIsTheOne(p, debts[chosen[k].0], collaterals[chosen[k].1], m, toNumber);
    AdmissiblePairsArePositive(debts[chosen[k].0], collaterals[chosen[k].1], m, toNumber);
  }

  // ----- Candidate plans of a user -----

  function HasDebt(reserves: seq<UserReserveData>): nat -> bool {
    (i: nat) => i < |reserves| && (reserves[i].currentVariableDebt > 0 || reserves[i].currentStableDebt > 0)
  }

  function HasCollateral(reserves: seq<UserReserveData>): nat -> bool {
    (i: nat) => i < |reserves| && reserves[i].usageAsCollateralEnabled && reserves[i].currentATokenBalance > 0
  }

  /** `Array.filter`. */
  function Filtered(reserves: seq<UserReserveData>, keep: nat -> bool): (r: seq<UserReserveData>)
    ensures forall x :: x in r <==> exists i :: 0 <= i < |reserves| && keep(i) && reserves[i] == x
  {
    var kept := Kept(|reserves|, keep);
    var r := seq(|kept|, k requires 0 <= k < |kept| => assert kept[k] in kept; reserves[kept[k]]);
    assert forall x :: x in r ==> exists i :: 0 <= i < |reserves| && keep(i) && reserves[i] == x by {
      forall x | x in r ensures exists i :: 0 <= i < |reserves| && keep(i) && reserves[i] == x {
        var k :| 0 <= k < |r| && r[k] == x;
        assert kept[k] in kept;
      }
    }
    assert forall i :: 0 <= i < |reserves| && keep(i) ==> reserves[i] in r by {
      forall i | 0 <= i < |reserves| && keep(i) ensures reserves[i] in r {
        assert i in kept;
        var k :| 0 <= k < |kept| && kept[k] == i;
        assert r[k] == reserves[i];
      }
    }
    r
  }

  function DebtPositions(reserves: seq<UserReserveData>): (r: seq<UserReserveData>)
    ensures forall x :: x in r <==> x in reserves && (x.currentVariableDebt > 0 || x.currentStableDebt > 0)
  {
    Filtered(reserves, HasDebt(reserves))
  }

  function CollateralPositions(reserves: seq<UserReserveData>): (r: seq<UserReserveData>)
    ensures forall x :: x in r <==> x in reserves && x.usageAsCollateralEnabled && x.currentATokenBalance > 0
  {
    Filtered(reserves, HasCollateral(reserves))
  }

  /** The selected pairs of a user's positions. */
  ghost function PairsOf(reserves: seq<UserReserveData>, m: Market, toNumber: int -> real): seq<PairScore> {
    TopPairs(DebtPositions(reserves), CollateralPositions(reserves), m, toNumber)
  }

  ghost predicate IsPlanOf(c: CandidatePlan, p: PairScore, m: Market) {
    && c.debtAsset == p.debtReserve.underlyingAsset && c.collateralAsset == p.collateralReserve.underlyingAsset
    && c.debtToCover == p.debtToCover && c.expectedCollateralOut == p.expectedCollateralOut
    && c.oracleScore == p.oracleScoreBigInt && c.liquidationBonusBps == p.liquidationBonusBps
    && c.debtAsset in m.decimals && c.debtAssetDecimals == m.decimals[c.debtAsset]
    && c.collateralAsset in m.decimals && c.collateralAssetDecimals == m.decimals[c.collateralAsset]
  }

  ghost predicate ArePlansOf(cs: seq<CandidatePlan>, ps: seq<PairScore>, m: Market) {
    |cs| == |ps| && forall i :: 0 <= i < |cs| ==> IsPlanOf(cs[i], ps[i], m)
  }

  /** Plans, field by field, of the best pairs of the user's positions. */
  ghost predicate BestPlans(cs: seq<CandidatePlan>, reserves: seq<UserReserveData>, m: Market, toNumber: int -> real) {
    exists pairs ::
      && BestPairs(pairs, DebtPositions(reserves), CollateralPositions(reserves), m, toNumber)
      && ArePlansOf(cs, pairs, m)
  }

  lemma PlansOfTopPairsAreBest(cs: seq<CandidatePlan>, reserves: seq<UserReserveData>, m: Market,
                               toNumber: int -> real)
    requires ArePlansOf(cs, PairsOf(reserves, m, toNumber), m)
    ensures BestPlans(cs, reserves, m, toNumber)
  {
    TopPairsAreTheBest(DebtPositions(reserves), CollateralPositions(reserves), m, toNumber);
  }

  /** Positive amounts and a positive score: what a candidate carries into the execution path. */
  predicate Positive(c: CandidatePlan) {
    c.debtToCover > 0 && c.expectedCollateralOut > 0 && c.oracleScore > 0
  }

  lemma CandidatesArePositive(cs: seq<CandidatePlan>, reserves: seq<UserReserveData>, m: Market, toNumber: int -> real)
    requires NumberLike(toNumber)
    requires ArePlansOf(cs, PairsOf(reserves, m, toNumber), m)
    ensures |cs| <= TOP_N_PAIRS
    ensures forall c :: c in cs ==> Positive(c)
  {
    var _ := TopPairsByIndex(DebtPositions(reserves), CollateralPositions(reserves), m, toNumber);
    forall i | 0 <= i < |cs| ensures Positive(cs[i]) {
      var p := PairsOf(reserves, m, toNumber)[i];
      TopPairsAreAdmissible(DebtPositions(reserves), CollateralPositions(reserves), m, toNumber, p);
    }
  }

  /** What is cached stays; of the rest, what was fetched for a position's asset is added. */
  ghost predicate Prefetched(before: map<Address, nat>, after: map<Address, nat>, positions: seq<UserReserveData>,
                             fetched: map<Address, nat>)
  {
    && (forall a :: a in after <==>
          a in before || (a in fetched && exists r :: r in positions && r.underlyingAsset == a))
    && (forall a :: a in after ==> after[a] == if a in before then before[a] else fetched[a])
  }

  class Planner {
    /** Reserve configurations fetched so far, kept across plans. */
    var reserveConfigCache: map<Address, nat>

    constructor ()
      ensures reserveConfigCache == map[]
    {
      reserveConfigCache := map[];
    }

    method PrefetchConfigs(positions: seq<UserReserveData>, fetched: map<Address, nat>)
      modifies this
      ensures Prefetched(old(reserveConfigCache), reserveConfigCache, positions, fetched)
    {
      var wanted := set r | r in positions :: r.underlyingAsset;
      reserveConfigCache := (map a | a in fetched && a in wanted :: fetched[a]) + reserveConfigCache;
    }

    /** The scoring phase of `SelectTopPairs`: the nested loops over debts and collaterals. */
    method ScorePairs(debts: seq<UserReserveData>, collaterals: seq<UserReserveData>, m: Market,
                      toNumber: int -> real) returns (scoredPairs: seq<PairScore>)
      requires NumberLike(toNumber)
      ensures scoredPairs == AllPairs(debts, collaterals, m, toNumber)
    {
      scoredPairs := [];
      for i := 0 to |debts|
        invariant scoredPairs == AllPairs(debts[..i], collaterals, m, toNumber)
      {
        var debt := debts[i];
        assert debts[..i + 1][..i] == debts[..i];
        if !DebtPriced(debt, m) {
          NoPairsWithoutDebtPrice(debt, collaterals, m, toNumber);
          continue;
        }
        var debtUsd1e18 := DebtUsd(debt, m);
        ghost var before := scoredPairs;
        for j := 0 to |collaterals|
          invariant scoredPairs == before + RowPairs(debt, collaterals[..j], m, toNumber)
        {
          var collateral := collaterals[j];
          assert collaterals[..j + 1][..j] == collaterals[..j];
          if !CollateralPriced(collateral, m) {
            continue;
          }
          var expectedCollateralOut := Seized(debt, collateral, m);
          if expectedCollateralOut > collateral.currentATokenBalance {
            continue;
          }
          var profitUsd1e18 := SeizedUsd(debt, collateral, m) - debtUsd1e18;
          var conservativeProfitUsd1e18 := ConservativeProfit(profitUsd1e18);
          var score := toNumber(conservativeProfitUsd1e18);
          HaircutKeepsSignAndOrder(profitUsd1e18, 0);
          if score > 0.0 {
            scoredPairs := scoredPairs
              + [PairScore(debt, collateral, score, conservativeProfitUsd1e18, debtUsd1e18,
                           SeizedUsd(debt, collateral, m), expectedCollateralOut, DebtToCover(debt),
                           BonusBps(m.liquidationBonuses[collateral.underlyingAsset]))];
          }
        }
        assert collaterals[..|collaterals|] == collaterals;
      }
      assert debts[..|debts|] == debts;
    }

    method SelectTopPairs(debts: seq<UserReserveData>, collaterals: seq<UserReserveData>, prices: map<Address, nat>,
                          decimals: map<Address, nat>, fetched: map<Address, nat>, toNumber: int -> real)
      returns (top: seq<PairScore>)
      requires NumberLike(toNumber)
      modifies this
      ensures Prefetched(old(reserveConfigCache), reserveConfigCache, debts + collaterals, fetched)
      ensures top == TopPairs(debts, collaterals, Market(prices, decimals, reserveConfigCache), toNumber)
      ensures BestPairs(top, debts, collaterals, Market(prices, decimals, reserveConfigCache), toNumber)
    {
      PrefetchConfigs(debts + collaterals, fetched);
      TopPairsAreTheBest(debts, collaterals, Market(prices, decimals, reserveConfigCache), toNumber);
      var scoredPairs := ScorePairs(debts, collaterals, Market(prices, decimals, reserveConfigCache), toNumber);
      if |scoredPairs| == 0 {
        return [];
      }
      scoredPairs := SortDesc(scoredPairs, ByScore());
      top := if |scoredPairs| <= TOP_N_PAIRS then scoredPairs else scoredPairs[..TOP_N_PAIRS];
    }

    /** The scoring phase of `SelectBestPair`, coded separately. */
    method ScorePairsForBest(debts: seq<UserReserveData>, collaterals: seq<UserReserveData>, m: Market,
                             toNumber: int -> real) returns (scoredPairs: seq<PairScore>)
      requires NumberLike(toNumber)
      ensures scoredPairs == AllPairs(debts, collaterals, m, toNumber)
    {
      scoredPairs := [];
      for i := 0 to |debts|
        invariant scoredPairs == AllPairs(debts[..i], collaterals, m, toNumber)
      {
        assert debts[..i + 1][..i] == debts[..i];
        if !DebtPriced(debts[i], m) {
          NoPairsWithoutDebtPrice(debts[i], collaterals, m, toNumber);
          continue;
        }
        var debtUsd1e18 := DebtUsd(debts[i], m);
        ghost var before := scoredPairs;
        for j := 0 to |collaterals|
          invariant scoredPairs == before + RowPairs(debts[i], collaterals[..j], m, toNumber)
        {
          assert collaterals[..j + 1][..j] == collaterals[..j];
          if !CollateralPriced(collaterals[j], m) {
            continue;
          }
          if Seized(debts[i], collaterals[j], m) > collaterals[j].currentATokenBalance {
            continue;
          }
          var collateralOutUsd1e18 := SeizedUsd(debts[i], collaterals[j], m);
          var profitUsd1e18: int := collateralOutUsd1e18 as int - debtUsd1e18;
          var conservativeProfitUsd1e18 := ConservativeProfit(profitUsd1e18);
          HaircutKeepsSignAndOrder(profitUsd1e18, 0);
          if toNumber(conservativeProfitUsd1e18) > 0.0 {
            scoredPairs := scoredPairs
              + [PairScore(debts[i], collaterals[j], toNumber(conservativeProfitUsd1e18), conservativeProfitUsd1e18,
                           debtUsd1e18, collateralOutUsd1e18, Seized(debts[i], collaterals[j], m),
                           DebtToCover(debts[i]), BonusBps(m.liquidationBonuses[collaterals[j].underlyingAsset]))];
          }
        }
        assert collaterals[..|collaterals|] == collaterals;
      }
      assert debts[..|debts|] == debts;
    }

    /** The legacy twin, with its own scoring loops: on the same data it returns the first of the top pairs. */
    method SelectBestPair(debts: seq<UserReserveData>, collaterals: seq<UserReserveData>, prices: map<Address, nat>,
                          decimals: map<Address, nat>, fetched: map<Address, nat>, toNumber: int -> real)
      returns (best: Option<PairScore>)
      requires NumberLike(toNumber)
      modifies this
      ensures Prefetched(old(reserveConfigCache), reserveConfigCache, debts + collaterals, fetched)
      ensures var top := TopPairs(debts, collaterals, Market(prices, decimals, reserveConfigCache), toNumber);
        best == if top == [] then None else Some(top[0])
      ensures IsBestPair(best, debts, collaterals, Market(prices, decimals, reserveConfigCache), toNumber)
    {
      PrefetchConfigs(debts + collaterals, fetched);
      var m := Market(prices, decimals, reserveConfigCache);
      var scoredPairs := ScorePairsForBest(debts, collaterals, m, toNumber);
      best := FirstByScore(scoredPairs);
      FirstOfTheBest(debts, collaterals, m, toNumber, best);
    }

    /** The end of `SelectBestPair`: sorts, cuts to the top three and takes the first. */
    method FirstByScore(scoredPairs: seq<PairScore>) returns (best: Option<PairScore>)
      ensures var sorted := SortDesc(scoredPairs, ByScore()); best == if sorted == [] then None else Some(sorted[0])
    {
      if |scoredPairs| == 0 {
        return None;
      }
      var sorted := SortDesc(scoredPairs, ByScore());
      var topPairs := if |sorted| <= TOP_N_PAIRS then sorted else sorted[..TOP_N_PAIRS];
      best := Some(topPairs[0]);
    }

    /** The market a plan is computed on, once the configurations are cached. */
    function MarketOf(prices: map<Address, nat>, decimals: map<Address, nat>): Market
      reads this
    {
      Market(prices, decimals, reserveConfigCache)
    }

    method BuildCandidatePlans(reserves: seq<UserReserveData>, prices: map<Address, nat>, decimals: map<Address, nat>,
                               fetched: map<Address, nat>, toNumber: int -> real)
      returns (candidates: seq<CandidatePlan>)
      requires NumberLike(toNumber)
      modifies this
      ensures var m := MarketOf(prices, decimals); ArePlansOf(candidates, PairsOf(reserves, m, toNumber), m)
      ensures var m := Market(prices, decimals, reserveConfigCache);
        BestPlans(candidates, reserves, m, toNumber)
      ensures |candidates| <= TOP_N_PAIRS && forall c :: c in candidates ==> Positive(c)
      ensures var debts, collaterals := DebtPositions(reserves), CollateralPositions(reserves);
        if debts == [] || collaterals == [] then reserveConfigCache == old(reserveConfigCache)
        else Prefetched(old(reserveConfigCache), reserveConfigCache, debts + collaterals, fetched)
    {
      candidates := [];
      var debtPositions := DebtPositions(reserves);
      var collateralPositions := CollateralPositions(reserves);
      if |debtPositions| == 0 || |collateralPositions| == 0 {
        NoPairsWithoutPositions(debtPositions, collateralPositions, MarketOf(prices, decimals), toNumber);
        PlansOfTopPairsAreBest(candidates, reserves, MarketOf(prices, decimals), toNumber);
        return;
      }
      var topPairs := SelectTopPairs(debtPositions, collateralPositions, prices, decimals, fetched, toNumber);
      ghost var m := MarketOf(prices, decimals);
      forall p | p in topPairs ensures Priced(p.debtReserve, p.collateralReserve, m) {
        TopPairsAreAdmissible(debtPositions, collateralPositions, m, toNumber, p);
      }
      candidates := ToCandidates(topPairs, MarketOf(prices, decimals));
      CandidatesArePositive(candidates, reserves, m, toNumber);
      PlansOfTopPairsAreBest(candidates, reserves, m, toNumber);
    }

    method ToCandidates(topPairs: seq<PairScore>, m: Market) returns (candidates: seq<CandidatePlan>)
      requires forall p :: p in topPairs ==> Priced(p.debtReserve, p.collateralReserve, m)
      ensures ArePlansOf(candidates, topPairs, m)
    {
      candidates := [];
      for i := 0 to |topPairs|
        invariant ArePlansOf(candidates, topPairs[..i], m)
      {
        var pair := topPairs[i];
        candidates := candidates + [CandidatePlan(
          pair.debtReserve.underlyingAsset, pair.collateralReserve.underlyingAsset, pair.debtToCover,
          pair.expectedCollateralOut, pair.oracleScoreBigInt, m.decimals[pair.debtReserve.underlyingAsset],
          m.decimals[pair.collateralReserve.underlyingAsset], pair.liquidationBonusBps)];
      }
      assert topPairs[..|topPairs|] == topPairs;
    }

    /** The legacy plan: on the same data, the first candidate of `BuildCandidatePlans`. */
    method BuildPlan(user: string, reserves: seq<UserReserveData>, prices: map<Address, nat>,
                     decimals: map<Address, nat>, fetched: map<Address, nat>, toNumber: int -> real)
      returns (plan: Option<LiquidationPlan>)
      requires NumberLike(toNumber)
      modifies this
      ensures var m := MarketOf(prices, decimals);
        var pairs := PairsOf(reserves, m, toNumber);
        if pairs == [] then plan == None
        else
          && plan.Some? && plan.value.user == user && plan.value.profitUsd == pairs[0].score
          && IsPlanOf(CandidatePlan(plan.value.debtAsset, plan.value.collateralAsset, plan.value.debtToCover,
                                    plan.value.expectedCollateralOut, pairs[0].oracleScoreBigInt,
                                    plan.value.debtAssetDecimals, plan.value.collateralAssetDecimals,
                                    plan.value.liquidationBonusBps), pairs[0], m)
    {
      var debtPositions := DebtPositions(reserves);
      var collateralPositions := CollateralPositions(reserves);
      if |debtPositions| == 0 || |collateralPositions| == 0 {
        NoPairsWithoutPositions(debtPositions, collateralPositions, MarketOf(prices, decimals), toNumber);
        return None;
      }
      var best := SelectBestPair(debtPositions, collateralPositions, prices, decimals, fetched, toNumber);
      if best == None {
        return None;
      }
      var pair := best.value;
      TopPairsAreAdmissible(debtPositions, collateralPositions, MarketOf(prices, decimals), toNumber, pair);
      plan := Some(LiquidationPlan(
        user, pair.debtReserve.underlyingAsset, pair.collateralReserve.underlyingAsset, pair.debtToCover,
        pair.expectedCollateralOut, decimals[pair.debtReserve.underlyingAsset],
        decimals[pair.collateralReserve.underlyingAsset], pair.liquidationBonusBps, pair.score));
    }
  }

  lemma {:induction false} NoPairsWithoutPositions(debts: seq<UserReserveData>, collaterals: seq<UserReserveData>,
                                                   m: Market, toNumber: int -> real)
    requires debts == [] || collaterals == []
    ensures AllPairs(debts, collaterals, m, toNumber) == []
    ensures TopPairs(debts, collaterals, m, toNumber) == []
  {
    if debts != [] {
      NoPairsWithoutPositions(debts[..|debts| - 1], collaterals, m, toNumber);
    }
  }

  lemma {:induction false} NoPairsWithoutDebtPrice(debt: UserReserveData, collaterals: seq<UserReserveData>, m: Market,
                                                   toNumber: int -> real)
    requires !DebtPriced(debt, m)
    ensures RowPairs(debt, collaterals, m, toNumber) == []
  {
    if collaterals != [] {
      NoPairsWithoutDebtPrice(debt, collaterals[..|collaterals| - 1], m, toNumber);
    }
  }
}
