/** Safety checks and the mapping of broadcast results (executorClient.ts, multi-RPC branch). */
module ExecutorClient {
  import opened Ordered
  import opened Chain
  import opened Safety
  import B = TxBroadcaster

  datatype LiquidationParams = LiquidationParams(
    user: string,
    collateralAsset: string,
    debtAsset: string,
    debtToCover: int,
    oneInchCalldata: string,
    minOut: int,
    payout: string,
    expectedCollateralOut: Option<int>)

  datatype SafetyReason = DebtNotPositive | CollateralNotPositive | RepaymentNotCovered

  datatype SafetyCheckResult = Safe | Unsafe(reason: SafetyReason)

  datatype ExecutionError = SafetyCheckFailed(reason: SafetyReason) | BroadcastFailed(kind: B.FailureKind) | Exception

  datatype ExecutionResult =
    | Mined(txHash: Tx)
    | Pending(txHash: Tx)
    | Failed(error: ExecutionError, failedHash: Option<Tx>)

  function PerformSafetyChecks(params: LiquidationParams): SafetyCheckResult {
    if params.debtToCover <= 0 then Unsafe(DebtNotPositive)
    else if params.expectedCollateralOut.Some? && params.expectedCollateralOut.value <= 0 then
      Unsafe(CollateralNotPositive)
    else if params.minOut < ComputeMinRequiredOut(params.debtToCover) then Unsafe(RepaymentNotCovered)
    else Safe
  }

  /** The `initiateLiquidation` argument the parameters become. */
  function CallOf(params: LiquidationParams): LiquidationCall {
    LiquidationCall(params.user, params.collateralAsset, params.debtAsset, params.debtToCover,
                    params.oneInchCalldata, params.minOut, params.payout)
  }

  /** What the RPC answers before anything is signed; a missing fee is zero, a failed query is none. */
  datatype Lookups = Lookups(fees: Option<(nat, nat)>, pendingNonce: Option<nat>)

  /** What the contract may rely on: a positive debt whose repayment, fee and buffer the swap covers. */
  ghost predicate Repayable(call: LiquidationCall) {
    && call.debtToCover > 0
    && call.minOut >= ComputeMinRequiredOut(call.debtToCover)
    && call.minOut * 10000 + 20000 > call.debtToCover * 10059
  }

  lemma SafeCallsAreRepayable(params: LiquidationParams)
    requires PerformSafetyChecks(params) == Safe
    ensures Repayable(CallOf(params))
    ensures params.expectedCollateralOut.Some? ==> params.expectedCollateralOut.value > 0
  {
    RequirementBounds(params.debtToCover);
  }

  function ResultOf(r: B.BroadcastResult): ExecutionResult {
    match r
    case Mined(t) => Mined(t)
    case Pending(t) => Pending(t)
    case Failed(kind, lastTxHash) => Failed(BroadcastFailed(kind), lastTxHash)
  }

  /** A broadcast's result as the caller sees it: the same kind, transaction and failure. */
  ghost predicate SameOutcome(r: B.BroadcastResult, result: ExecutionResult) {
    && (r.Mined? <==> result.Mined?) && (r.Pending? <==> result.Pending?)
    && (r.Mined? ==> result.txHash == r.txHash)
    && (r.Pending? ==> result.txHash == r.txHash)
    && (r.Failed? ==> result.error == BroadcastFailed(r.error) && result.failedHash == r.lastTxHash)
  }

  class ExecutorClient {
    const broadcaster: B.Broadcaster
    const wallet: string
    /** The liquidation contract. */
    const executorAddress: string
    /** Whether the wallet's signer always succeeds. */
    const canSign: bool

    constructor (rpcUrls: nat, wallet: string, executorAddress: string, canSign: bool)
      requires rpcUrls > 1
      ensures broadcaster.providers == rpcUrls && broadcaster.options == B.Options(3000, 3, 20)
      ensures this.wallet == wallet && this.executorAddress == executorAddress && this.canSign == canSign
    {
      broadcaster := new B.Broadcaster(rpcUrls, 3000, 3, 20);
      this.wallet, this.executorAddress := wallet, executorAddress;
      this.canSign := canSign;
    }

    /**
     The broadcaster is started exactly when the parameters pass the checks and the lookups answer;
     then the result is that of one run of it, otherwise a failure without a hash.
     */
    method AttemptLiquidation(node: Node, params: LiquidationParams, rpc: Lookups)
      returns (result: ExecutionResult, ghost started: bool, ghost job: B.Job, ghost es: B.Trace)
      requires WellFormed(node.chain)
      modifies node
      ensures WellFormed(node.chain)
      ensures started <==>
        && params.debtToCover > 0
        && (params.expectedCollateralOut.Some? ==> params.expectedCollateralOut.value > 0)
        && params.minOut >= ComputeMinRequiredOut(params.debtToCover)
        && rpc.fees.Some? && rpc.pendingNonce.Some?
      ensures params.debtToCover <= 0 ==> result == Failed(SafetyCheckFailed(DebtNotPositive), None)
      ensures params.debtToCover > 0 ==>
        if params.expectedCollateralOut.Some? && params.expectedCollateralOut.value <= 0 then
          result == Failed(SafetyCheckFailed(CollateralNotPositive), None)
        else params.minOut < ComputeMinRequiredOut(params.debtToCover) ==>
          result == Failed(SafetyCheckFailed(RepaymentNotCovered), None)
      ensures !started ==> result.Failed? && result.failedHash == None
      ensures !started ==> OthersOnly(old(node.chain), node.chain, params.user) && node.talk == old(node.talk)
      ensures started ==>
        && job.call.user == params.user
        && job.call.collateralAsset == params.collateralAsset
        && job.call.debtAsset == params.debtAsset
        && job.call.debtToCover == params.debtToCover
        && job.call.oneInchCalldata == params.oneInchCalldata
        && job.call.minOut == params.minOut
        && job.call.payout == params.payout
      ensures started ==>
        && job.nonce == rpc.pendingNonce.value
        && job.priorityFee == (if rpc.fees.value.0 > 0 then rpc.fees.value.0 else 1_000_000_000)
        && job.maxFee == (if rpc.fees.value.1 > 0 then rpc.fees.value.1 else 50_000_000_000)
        && job.options == broadcaster.options && job.canSign == canSign
      ensures started ==> exists r ::
        B.Returns(job, old(node.chain), old(node.clock), es, r) && SameOutcome(r, result)
      ensures started ==> B.End(job, old(node.chain), old(node.clock), es).chain == node.chain
      ensures old(node.talk) <= node.talk
      ensures started ==> var talk := node.talk[|old(node.talk)|..];
        && OfferedTxs(talk) == B.End(job, old(node.chain), old(node.clock), es).progress.signed
        && AcceptedTxs(talk) == B.End(job, old(node.chain), old(node.clock), es).progress.sent
        && (forall x :: x in talk && x.Offered? ==> |x.accepts| == broadcaster.providers)
    {
      started, job, es := false, B.Job(CallOf(params), 0, 0, 0, broadcaster.options, canSign), B.Empty;
      var safetyCheck := PerformSafetyChecks(params);
      if safetyCheck.Unsafe? {
        return Failed(SafetyCheckFailed(safetyCheck.reason), None), started, job, es;
      }
      if rpc.fees == None {
        return Failed(Exception, None), started, job, es;
      }
      var request := B.TxRequest(CallOf(params), None, B.OrDefault(rpc.fees.value.0, B.ONE_GWEI),
                                 B.OrDefault(rpc.fees.value.1, B.FIFTY_GWEI));
      var r;
      r, started, job, es := broadcaster.BroadcastWithReplacement(node, request, canSign, rpc.pendingNonce);
      result := ResultOf(r);
    }
  }
}
