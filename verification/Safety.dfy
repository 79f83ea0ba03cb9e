/** The repayment formulas shared by the planner's caller and the executor client (safety.ts). */
module Safety {
  import opened Arithmetic

  const FLASHLOAN_FEE_BPS: nat := 9
  const SAFETY_BUFFER_BPS: nat := 50

  function ComputeMinRequiredOut(debtToCover: int,
                                 flashloanFeeBps: nat := FLASHLOAN_FEE_BPS,
                                 safetyBufferBps: nat := SAFETY_BUFFER_BPS): int
  {
    var flashloanFee := TruncDiv(debtToCover * flashloanFeeBps, BPS);
    var safetyBuffer := TruncDiv(debtToCover * safetyBufferBps, BPS);
    debtToCover + flashloanFee + safetyBuffer
  }

  function ComputeNetDebtToken(minOut: int, debtToCover: int,
                               flashloanFeeBps: nat := FLASHLOAN_FEE_BPS,
                               safetyBufferBps: nat := SAFETY_BUFFER_BPS): int
  {
    var flashloanFee := TruncDiv(debtToCover * flashloanFeeBps, BPS);
    var safetyBuffer := TruncDiv(debtToCover * safetyBufferBps, BPS);
    minOut - debtToCover - flashloanFee - safetyBuffer
  }

  /**
   The scoring formula and the check formula are the same threshold: the net amount is the surplus
   of `minOut` over the requirement, whatever the sign of the debt.
   */
  lemma NetIsSurplusOverRequirement(minOut: int, debtToCover: int)
    ensures ComputeNetDebtToken(minOut, debtToCover) == minOut - ComputeMinRequiredOut(debtToCover)
  {
  }

  /** The requirement is the debt, its flash-loan fee of 9 and its buffer of 50 basis points, each rounded down. */
  lemma RequirementIsTheSum(debtToCover: int, fee: int, buffer: int)
    requires debtToCover >= 0
    requires IsQuotient(fee, 9 * debtToCover, 10000) && IsQuotient(buffer, 50 * debtToCover, 10000)
    ensures ComputeMinRequiredOut(debtToCover) == debtToCover + fee + buffer
  {
    DivIsQuotient(debtToCover * FLASHLOAN_FEE_BPS, BPS);
    DivIsQuotient(debtToCover * SAFETY_BUFFER_BPS, BPS);
    QuotientIsUnique(fee, debtToCover * FLASHLOAN_FEE_BPS / BPS, 9 * debtToCover, 10000);
    QuotientIsUnique(buffer, debtToCover * SAFETY_BUFFER_BPS / BPS, 50 * debtToCover, 10000);
  }

  /** The requirement is 10059/10000 of the debt, short of it by less than two units. */
  lemma RequirementBounds(debtToCover: int)
    requires debtToCover >= 0
    ensures var req := ComputeMinRequiredOut(debtToCover);
      && debtToCover <= req
      && req * BPS <= debtToCover * (BPS + FLASHLOAN_FEE_BPS + SAFETY_BUFFER_BPS) < (req + 2) * BPS
  {
    FloorBounds(debtToCover * FLASHLOAN_FEE_BPS, BPS);
    FloorBounds(debtToCover * SAFETY_BUFFER_BPS, BPS);
  }
}
