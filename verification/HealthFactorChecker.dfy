/** Batched health-factor checks (HealthFactorChecker.ts): what the chain answers, and what a check reports. */
module HealthFactorChecker {
  import opened Ordered
  import opened Arithmetic

  /** A health factor: a number, or infinite for users without debt and users not checked yet. */
  datatype HealthFactor = Infinite | Num(value: real)

  predicate Below(hf: HealthFactor, threshold: real) { hf.Num? && hf.value < threshold }

  predicate AtMost(hf: HealthFactor, threshold: real) { hf.Num? && hf.value <= threshold }

  predicate Above(hf: HealthFactor, threshold: real) { hf.Infinite? || hf.value > threshold }

  /** The decoded `getUserAccountData`, in the base currency and at the 1e18 scale. */
  datatype Account = Account(totalCollateralBase: nat, totalDebtBase: nat, healthFactor: nat)

  /** One user's part of a multicall, none if it failed, and the ETH price, none if its lookup throws. */
  datatype Answer = Answer(account: Option<Account>, ethUsd1e18: Option<nat>)

  datatype BaseCurrency = BaseCurrency(isUsd: bool, decimals: nat)

  datatype Check = Check(healthFactor: HealthFactor, debtUsd1e18: nat, totalCollateralBase: nat)

  datatype CheckResult = CheckResult(address: string, check: Check)

  /** No debt is an infinite health factor; a zero one next to collateral is not believed. */
  function Decode(base: BaseCurrency, answer: Answer): Option<Check> {
    if answer.account == None then None
    else
      var a := answer.account.value;
      if a.totalDebtBase > 0 && a.healthFactor == 0 && a.totalCollateralBase > 0 then None
      else if !base.isUsd && answer.ethUsd1e18 == None then None
      else
        var hf := if a.totalDebtBase == 0 then Infinite else Num(a.healthFactor as real / WAD as real);
        var debt1e18 := NormalizeTo18(a.totalDebtBase, base.decimals);
        Some(Check(hf, if base.isUsd then debt1e18 else debt1e18 * answer.ethUsd1e18.value / WAD,
                   a.totalCollateralBase))
  }

  /**
   What a check says about the account: a user is reported unless the call failed, the price is missing, or a
   zero health factor stands next to debt and collateral; the health factor is the raw value over 1e18, and
   the debt the base amount at its own decimals, times the ETH price unless the base is USD.
   */
  lemma ChecksReportTheAccount(base: BaseCurrency, answer: Answer)
    ensures Decode(base, answer).Some? <==>
      && answer.account.Some?
      && (answer.account.value.totalDebtBase == 0 || answer.account.value.healthFactor > 0
          || answer.account.value.totalCollateralBase == 0)
      && (base.isUsd || answer.ethUsd1e18.Some?)
    ensures Decode(base, answer).Some? ==>
      var a, c := answer.account.value, Decode(base, answer).value;
      && c.totalCollateralBase == a.totalCollateralBase
      && (if a.totalDebtBase == 0 then c.healthFactor == Infinite
          else c.healthFactor.Num? && c.healthFactor.value * 1_000_000_000_000_000_000.0 == a.healthFactor as real)
      && exists at18: nat :: IsScaled(a.totalDebtBase, base.decimals, at18)
           && if base.isUsd then c.debtUsd1e18 == at18
              else IsQuotient(c.debtUsd1e18, at18 * answer.ethUsd1e18.value, 1_000_000_000_000_000_000)
  {
    if Decode(base, answer).Some? {
      var at18 := NormalizeTo18(answer.account.value.totalDebtBase, base.decimals);
      ScaledIsTheOne(answer.account.value.totalDebtBase, base.decimals, at18);
      if !base.isUsd {
        DivIsQuotient(at18 * answer.ethUsd1e18.value, WAD);
      }
    }
  }

  /** A check the code can report at all. */
  ghost predicate Emitted(base: BaseCurrency, c: Check) {
    exists answer :: Decode(base, answer) == Some(c)
  }

  /**
   The health factor is infinite exactly without debt, and then the reported debt is zero. The converse
   holds for up to 18 base decimals unless ETH is below one dollar.
   */
  lemma InfiniteExactlyWithoutDebt(base: BaseCurrency, answer: Answer)
    requires Decode(base, answer).Some?
    ensures var c := Decode(base, answer).value;
      && (c.healthFactor == Infinite <==> answer.account.value.totalDebtBase == 0)
      && (c.healthFactor == Infinite ==> c.debtUsd1e18 == 0)
      && (c.debtUsd1e18 == 0 && base.decimals <= 18 && (base.isUsd || answer.ethUsd1e18.value >= WAD) ==>
            c.healthFactor == Infinite)
  {
    var debt := answer.account.value.totalDebtBase;
    var debt1e18 := NormalizeTo18(debt, base.decimals);
    if debt == 0 {
      if base.decimals > 18 { MulThenDiv(0, Pow10(base.decimals - 18)); }
      assert debt1e18 == 0;
    } else if base.decimals <= 18 {
      if base.decimals < 18 { MulMono(1, debt, Pow10(18 - base.decimals)); }
      if !base.isUsd && answer.ethUsd1e18.value >= WAD {
        MulMono(1, debt1e18, answer.ethUsd1e18.value);
      }
    }
  }

  lemma WholeUnitsScale(units: nat, decimals: nat)
    requires decimals <= 18
    ensures NormalizeTo18(units * Pow10(decimals), decimals) == units * WAD
  {
    var here, up := Pow10(decimals), Pow10(18 - decimals);
    WadIsPow10();
    assert here * up == WAD by { Pow10Sum(decimals, 18 - decimals); }
    if decimals < 18 {
      MulAssociates(units, here, up);
    }
  }

  lemma MulAssociates(x: int, y: int, z: int)
    ensures (x * y) * z == x * (y * z)
  {
  }

  /** Any whole number of dollars is a debt the checker may report. */
  lemma WholeDollarsAreEmitted(base: BaseCurrency, dollars: nat) returns (c: Check)
    requires base.decimals <= 18
    ensures Emitted(base, c) && c.debtUsd1e18 == dollars * WAD
  {
    WholeUnitsScale(dollars, base.decimals);
    c := DebtIsReported(base, dollars * Pow10(base.decimals));
  }

  /** With ETH at one dollar the reported debt is the base debt at the 1e18 scale. */
  lemma DebtIsReported(base: BaseCurrency, debt: nat) returns (c: Check)
    ensures Emitted(base, c) && c.debtUsd1e18 == NormalizeTo18(debt, base.decimals)
  {
    var answer := Answer(Some(Account(0, debt, 0)), Some(WAD));
    MulThenDiv(NormalizeTo18(debt, base.decimals), WAD);
    c := Decode(base, answer).value;
  }

  ghost function HasCheck(base: BaseCurrency, addresses: seq<string>, answers: string -> Answer): nat -> bool {
    (i: nat) => i < |addresses| && Decode(base, answers(addresses[i])).Some?
  }

  /** The checks of the first `n` users: one for each that has one, in order. */
  ghost function ResultsBelow(base: BaseCurrency, addresses: seq<string>, answers: string -> Answer,
                              n: nat): seq<CheckResult>
  {
    var kept := Kept(n, HasCheck(base, addresses, answers));
    seq(|kept|, k requires 0 <= k < |kept| =>
      assert kept[k] in kept;
      CheckResult(addresses[kept[k]], Decode(base, answers(addresses[kept[k]])).value))
  }

  ghost function Results(base: BaseCurrency, addresses: seq<string>, answers: string -> Answer): seq<CheckResult> {
    ResultsBelow(base, addresses, answers, |addresses|)
  }

  /** A user of the batch has a result exactly if its check succeeded, and that check is the result. */
  lemma ResultsAreTheChecks(base: BaseCurrency, addresses: seq<string>, answers: string -> Answer, r: CheckResult)
    ensures r in Results(base, addresses, answers)
       <==> r.address in addresses && Decode(base, answers(r.address)) == Some(r.check)
  {
    var kept := Kept(|addresses|, HasCheck(base, addresses, answers));
    var results := Results(base, addresses, answers);
    if r in results {
      var k :| 0 <= k < |results| && results[k] == r;
      assert kept[k] in kept;
    }
    if r.address in addresses && Decode(base, answers(r.address)) == Some(r.check) {
      var i :| 0 <= i < |addresses| && addresses[i] == r.address;
      assert i in kept;
      var k :| 0 <= k < |kept| && kept[k] == i;
      assert results[k] == r;
    }
  }

  /** Multicalls of `batchSize` users each, one after the other. */
  method CheckBatch(base: BaseCurrency, addresses: seq<string>, answers: string -> Answer, batchSize: nat)
    returns (results: seq<CheckResult>)
    requires batchSize > 0
    ensures results == Results(base, addresses, answers)
    ensures forall r :: r in results <==> r.address in addresses && Decode(base, answers(r.address)) == Some(r.check)
  {
    results := [];
    var i := 0;
    while i < |addresses|
      invariant 0 <= i <= |addresses| && results == ResultsBelow(base, addresses, answers, i)
    {
      var end := if i + batchSize < |addresses| then i + batchSize else |addresses|;
      for j := i to end
        invariant results == ResultsBelow(base, addresses, answers, j)
      {
        var check := Decode(base, answers(addresses[j]));
        if check.Some? {
          results := results + [CheckResult(addresses[j], check.value)];
        }
      }
      i := end;
    }
    forall r ensures r in results <==> r.address in addresses && Decode(base, answers(r.address)) == Some(r.check) {
      ResultsAreTheChecks(base, addresses, answers, r);
    }
  }
}
