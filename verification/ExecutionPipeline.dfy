/**
 The `onExecute` closure of index.ts and its runs: the pending guard, the prepared-plan and the freshly
 quoted path, and what a user's attempts amount to over a whole run.
 */
module ExecutionPipeline {
  import opened Ordered
  import opened Chain
  import opened Safety
  import B = TxBroadcaster
  import E = ExecutorClient
  import opened AttemptHistory
  import H = AttemptHistory
  import C = PlanCache
  import P = LiquidationPlanner

  // ----- Choosing a candidate -----

  const SWAP_SLIPPAGE_BPS: nat := 100

  datatype QuoteRequest = QuoteRequest(
    fromToken: string,
    toToken: string,
    amount: nat,
    fromAddress: string,
    slippageBps: nat)

  /** A swap quote; no quote at all is a failed request. */
  datatype Quote = Quote(minOut: int, data: string)

  datatype QuotedCandidate = QuotedCandidate(
    candidate: P.CandidatePlan,
    minOut: int,
    netDebtToken: int,
    swapData: string)

  function ByNet(): QuotedCandidate -> real { (q: QuotedCandidate) => q.netDebtToken as real }

  function NetOf(c: P.CandidatePlan, q: Quote): int {
    ComputeNetDebtToken(q.minOut, c.debtToCover)
  }

  /** A candidate with a quote and a positive net outcome. */
  predicate IsViable(c: P.CandidatePlan, q: Option<Quote>) {
    q.Some? && NetOf(c, q.value) > 0
  }

  function Quoted(c: P.CandidatePlan, q: Quote): QuotedCandidate {
    QuotedCandidate(c, q.minOut, NetOf(c, q), q.data)
  }

  ghost function ViableAt(candidates: seq<P.CandidatePlan>, quotes: seq<Option<Quote>>): nat -> bool
    requires |quotes| == |candidates|
  {
    (i: nat) => i < |candidates| && IsViable(candidates[i], quotes[i])
  }

  /** The viable ones of the first `n` candidates, each once, in candidate order. */
  ghost function ViableBelow(candidates: seq<P.CandidatePlan>, quotes: seq<Option<Quote>>, n: nat): seq<QuotedCandidate>
    requires |quotes| == |candidates|
  {
    var kept := Kept(n, ViableAt(candidates, quotes));
    seq(|kept|, k requires 0 <= k < |kept| =>
      assert kept[k] in kept;
      Quoted(candidates[kept[k]], quotes[kept[k]].value))
  }

  ghost function Viable(candidates: seq<P.CandidatePlan>, quotes: seq<Option<Quote>>): seq<QuotedCandidate>
    requires |quotes| == |candidates|
  {
    ViableBelow(candidates, quotes, |candidates|)
  }

  /** Exactly the candidates with a positive net outcome are in the list. */
  lemma ViableMembers(candidates: seq<P.CandidatePlan>, quotes: seq<Option<Quote>>, v: QuotedCandidate)
    requires |quotes| == |candidates|
    ensures v in Viable(candidates, quotes) <==> exists i :: (
      && 0 <= i < |candidates|
      && IsViable(candidates[i], quotes[i]) && v == Quoted(candidates[i], quotes[i].value))
  {
    var kept := Kept(|candidates|, ViableAt(candidates, quotes));
    var viable := Viable(candidates, quotes);
    if v in viable {
      var k :| 0 <= k < |viable| && viable[k] == v;
      assert kept[k] in kept;
    }
    if i :| 0 <= i < |candidates| && IsViable(candidates[i], quotes[i]) && v == Quoted(candidates[i], quotes[i].value) {
      assert i in kept;
      var k :| 0 <= k < |kept| && kept[k] == i;
      assert viable[k] == v;
    }
  }

  /** Enough to repay debt, flash-loan fee and buffer, with something left. */
  ghost predicate LeavesSurplus(c: P.CandidatePlan, q: Option<Quote>) {
    q.Some? && q.value.minOut > ComputeMinRequiredOut(c.debtToCover)
  }

  /** The first of the candidates whose quote leaves the largest surplus, if that is positive. */
  ghost predicate IsBest(candidates: seq<P.CandidatePlan>, quotes: seq<Option<Quote>>, i: nat)
    requires |quotes| == |candidates|
  {
    && i < |candidates| && LeavesSurplus(candidates[i], quotes[i])
    && forall j :: 0 <= j < |candidates| && quotes[j].Some? ==>
         var surplus := quotes[j].value.minOut - ComputeMinRequiredOut(candidates[j].debtToCover);
         var best := quotes[i].value.minOut - ComputeMinRequiredOut(candidates[i].debtToCover);
         surplus <= best && (j < i ==> surplus < best)
  }

  /** One request per candidate, in order: its whole collateral into its debt asset, for the liquidation contract. */
  function QuotesFor(candidates: seq<P.CandidatePlan>, quote: (nat, QuoteRequest) -> Option<Quote>,
                     executor: string): (quotes: seq<Option<Quote>>)
    ensures |quotes| == |candidates|
    ensures forall i :: 0 <= i < |candidates| ==>
      quotes[i] == quote(i, QuoteRequest(candidates[i].collateralAsset, candidates[i].debtAsset,
                                         candidates[i].expectedCollateralOut, executor, 100))
  {
    seq(|candidates|, i requires 0 <= i < |candidates| =>
      quote(i, QuoteRequest(candidates[i].collateralAsset, candidates[i].debtAsset,
                            candidates[i].expectedCollateralOut, executor, SWAP_SLIPPAGE_BPS)))
  }

  lemma ViableIsSurplus(c: P.CandidatePlan, q: Option<Quote>)
    ensures IsViable(c, q) <==> LeavesSurplus(c, q)
    ensures q.Some? ==> NetOf(c, q.value) == q.value.minOut - ComputeMinRequiredOut(c.debtToCover)
  {
    if q.Some? { NetIsSurplusOverRequirement(q.value.minOut, c.debtToCover); }
  }

  /** What is sent for a candidate. */
  function ParamsOf(user: string, q: QuotedCandidate, payout: string): E.LiquidationParams {
    E.LiquidationParams(user, q.candidate.collateralAsset, q.candidate.debtAsset, q.candidate.debtToCover,
                        q.swapData, q.minOut, payout, Some(q.candidate.expectedCollateralOut))
  }

  /** The check can never reject a freshly quoted candidate of the planner. */
  lemma FreshCandidatesPassTheChecks(user: string, q: QuotedCandidate, payout: string)
    requires P.Positive(q.candidate)
    requires q.netDebtToken == ComputeNetDebtToken(q.minOut, q.candidate.debtToCover) > 0
    ensures E.PerformSafetyChecks(ParamsOf(user, q, payout)) == E.Safe
  {
    NetIsSurplusOverRequirement(q.minOut, q.candidate.debtToCover);
  }

  /** The candidate a cached plan stands for. */
  function PreparedCandidate(plan: C.PreparedPlan): QuotedCandidate {
    QuotedCandidate(
      P.CandidatePlan(plan.debtAsset, plan.collateralAsset, plan.debtToCover, plan.expectedCollateralOut, plan.score,
                      plan.debtAssetDecimals, plan.collateralAssetDecimals, plan.liquidationBonusBps),
      plan.minOut, ComputeNetDebtToken(plan.minOut, plan.debtToCover), plan.oneInchCalldata)
  }

  /**
   A prepared plan is not filtered by its net outcome: the check alone decides, and passes exactly when
   the amounts are positive and the net outcome is not negative.
   */
  lemma PreparedPlansPassIff(user: string, plan: C.PreparedPlan, payout: string)
    ensures E.PerformSafetyChecks(ParamsOf(user, PreparedCandidate(plan), payout)) == E.Safe
       <==> plan.debtToCover > 0 && plan.expectedCollateralOut > 0
            && ComputeNetDebtToken(plan.minOut, plan.debtToCover) >= 0
  {
    NetIsSurplusOverRequirement(plan.minOut, plan.debtToCover);
  }

  /** Quotes every candidate, keeps the profitable ones and takes the largest net outcome. */
  method ChooseFresh(user: string, candidates: seq<P.CandidatePlan>, quotes: seq<Option<Quote>>, payout: string)
    returns (chosen: Option<QuotedCandidate>)
    requires |quotes| == |candidates|
    requires forall c :: c in candidates ==> P.Positive(c)
    ensures chosen == None <==> forall i :: 0 <= i < |candidates| ==> !LeavesSurplus(candidates[i], quotes[i])
    ensures chosen.Some? ==> exists i: nat ::
      IsBest(candidates, quotes, i) && IsQuoteOf(chosen.value, candidates[i], quotes[i].value)
    ensures chosen.Some? ==> E.PerformSafetyChecks(ParamsOf(user, chosen.value, payout)) == E.Safe
  {
    var quotedCandidates := QuoteCandidates(candidates, quotes);
    if |quotedCandidates| == 0 {
      NoneLeavesSurplus(candidates, quotes);
      return None;
    }
    var sorted := SortDesc(quotedCandidates, ByNet());
    chosen := Some(sorted[0]);
    ghost var i := FirstSortedIsBest(candidates, quotes);
    FreshCandidatesPassTheChecks(user, sorted[0], payout);
  }

  lemma NoneLeavesSurplus(candidates: seq<P.CandidatePlan>, quotes: seq<Option<Quote>>)
    requires |quotes| == |candidates| && Viable(candidates, quotes) == []
    ensures forall i :: 0 <= i < |candidates| ==> !LeavesSurplus(candidates[i], quotes[i])
  {
    forall i | 0 <= i < |candidates| ensures !LeavesSurplus(candidates[i], quotes[i]) {
      ViableIsSurplus(candidates[i], quotes[i]);
      if IsViable(candidates[i], quotes[i]) {
        ViableMembers(candidates, quotes, Quoted(candidates[i], quotes[i].value));
      }
    }
  }

  /** Sorting the viable candidates puts the first best one in front. */
  lemma FirstSortedIsBest(candidates: seq<P.CandidatePlan>, quotes: seq<Option<Quote>>) returns (i: nat)
    requires |quotes| == |candidates| && Viable(candidates, quotes) != []
    ensures IsBest(candidates, quotes, i)
    ensures SortDesc(Viable(candidates, quotes), ByNet())[0] == Quoted(candidates[i], quotes[i].value)
  {
    var viable := Viable(candidates, quotes);
    var kept := Kept(|candidates|, ViableAt(candidates, quotes));
    var p := SortedFirstIsBest(viable);
    i := kept[p];
    assert i in kept;
    ViableIsSurplus(candidates[i], quotes[i]);
    forall j | 0 <= j < |candidates| && quotes[j].Some?
      ensures var surplus := quotes[j].value.minOut - ComputeMinRequiredOut(candidates[j].debtToCover);
        var best := quotes[i].value.minOut - ComputeMinRequiredOut(candidates[i].debtToCover);
        surplus <= best && (j < i ==> surplus < best)
    {
      ViableIsSurplus(candidates[j], quotes[j]);
      if IsViable(candidates[j], quotes[j]) {
        assert j in kept;
        var q :| 0 <= q < |kept| && kept[q] == j;
        assert viable[q] == Quoted(candidates[j], quotes[j].value);
      }
    }
  }

  /** The position of the sort's first element: nothing is larger, and everything before is smaller. */
  lemma SortedFirstIsBest(vs: seq<QuotedCandidate>) returns (p: nat)
    requires vs != []
    ensures p < |vs| && SortDesc(vs, ByNet())[0] == vs[p]
    ensures forall q :: 0 <= q < |vs| ==>
      vs[q].netDebtToken <= vs[p].netDebtToken && (q < p ==> vs[q].netDebtToken < vs[p].netDebtToken)
  {
    var sorted := SortDesc(vs, ByNet());
    var key := ByNet()(sorted[0]);
    SortDescSorts(vs, ByNet());
    NothingAboveTheFirst(vs, sorted);
    SortDescIsStable(vs, ByNet(), key);
    FirstKeepsItsPlace(sorted);
    p := FirstWithKey(vs, key);
  }

  lemma NothingAboveTheFirst(vs: seq<QuotedCandidate>, sorted: seq<QuotedCandidate>)
    requires sorted != [] && Descending(sorted, ByNet()) && multiset(sorted) == multiset(vs)
    ensures forall q :: 0 <= q < |vs| ==> vs[q].netDebtToken <= sorted[0].netDebtToken
  {
    forall q | 0 <= q < |vs| ensures vs[q].netDebtToken <= sorted[0].netDebtToken {
      assert vs[q] in multiset(sorted);
      var i :| 0 <= i < |sorted| && sorted[i] == vs[q];
      assert ByNet()(sorted[0]) >= ByNet()(sorted[i]);
    }
  }

  lemma {:induction false} FirstWithKey(vs: seq<QuotedCandidate>, key: real) returns (p: nat)
    requires WithKey(vs, ByNet(), key) != []
    ensures p < |vs| && WithKey(vs, ByNet(), key)[0] == vs[p] && vs[p].netDebtToken as real == key
    ensures forall q :: 0 <= q < p ==> vs[q].netDebtToken as real != key
  {
    var init := vs[..|vs| - 1];
    if WithKey(init, ByNet(), key) != [] {
      p := FirstWithKey(init, key);
    } else {
      NoneWithKey(init, key);
      p := |init|;
    }
  }

  lemma {:induction false} NoneWithKey(vs: seq<QuotedCandidate>, key: real)
    requires WithKey(vs, ByNet(), key) == []
    ensures forall q :: 0 <= q < |vs| ==> vs[q].netDebtToken as real != key
  {
    if vs != [] {
      NoneWithKey(vs[..|vs| - 1], key);
    }
  }

  lemma {:induction false} FirstKeepsItsPlace(s: seq<QuotedCandidate>)
    requires s != []
    ensures var best := WithKey(s, ByNet(), ByNet()(s[0])); best != [] && best[0] == s[0]
  {
    if |s| > 1 {
      FirstKeepsItsPlace(s[..|s| - 1]);
    } else {
      assert s[..0] == [];
    }
  }

  method QuoteCandidates(candidates: seq<P.CandidatePlan>, quotes: seq<Option<Quote>>)
    returns (quotedCandidates: seq<QuotedCandidate>)
    requires |quotes| == |candidates|
    ensures quotedCandidates == Viable(candidates, quotes)
    ensures forall v :: v in quotedCandidates <==> exists i :: (
      && 0 <= i < |candidates| && LeavesSurplus(candidates[i], quotes[i])
      && v == QuotedCandidate(candidates[i], quotes[i].value.minOut,
                              quotes[i].value.minOut - ComputeMinRequiredOut(candidates[i].debtToCover),
                              quotes[i].value.data))
  {
    quotedCandidates := [];
    for i := 0 to |candidates|
      invariant quotedCandidates == ViableBelow(candidates, quotes, i)
    {
      if quotes[i].Some? {
        var minOut := quotes[i].value.minOut;
        var netDebtToken := ComputeNetDebtToken(minOut, candidates[i].debtToCover);
        if netDebtToken > 0 {
          quotedCandidates := quotedCandidates
            + [QuotedCandidate(candidates[i], minOut, netDebtToken, quotes[i].value.data)];
        }
      }
    }
    forall v
      ensures v in quotedCandidates <==> exists i :: (
        && 0 <= i < |candidates| && LeavesSurplus(candidates[i], quotes[i])
        && v == QuotedCandidate(candidates[i], quotes[i].value.minOut,
                                quotes[i].value.minOut - ComputeMinRequiredOut(candidates[i].debtToCover),
                                quotes[i].value.data))
    {
      ViableMembers(candidates, quotes, v);
      forall i | 0 <= i < |candidates|
        ensures IsViable(candidates[i], quotes[i]) <==> LeavesSurplus(candidates[i], quotes[i])
        ensures quotes[i].Some? ==>
          NetOf(candidates[i], quotes[i].value)
          == quotes[i].value.minOut - ComputeMinRequiredOut(candidates[i].debtToCover)
      {
        ViableIsSurplus(candidates[i], quotes[i]);
      }
    }
  }

  /** What an execution does once the guard lets it through. */
  datatype Decision = Note(status: AttemptStatus) | Try(candidate: QuotedCandidate)

  /** The RPC answers an execution depends on; the closure and the broadcaster each look the nonce up. */
  datatype Lookups = Lookups(pendingNonce: Option<nat>, client: E.Lookups)

  /** An execution that ends in a record and sends nothing. */
  ghost predicate OnlyNoted(status: AttemptStatus, record: AttemptRecord, made: seq<Attempt>) {
    record.status == status && record.txHash == None && made == []
  }

  /**
   What becomes of a liquidation once it is chosen. It is broadcast exactly when the lookups answer and its
   amounts are positive and repay; everything signed is that very call; the recorded nonce is the closure's,
   the broadcast one the broadcaster's; and the record names a transaction unless nothing was accepted.
   */
  ghost predicate Carried(call: LiquidationCall, expectedCollateralOut: int, rpc: Lookups, record: AttemptRecord,
                          made: seq<Attempt>)
  {
    if rpc.pendingNonce == None then OnlyNoted(Error, record, made)
    else if call.debtToCover <= 0 || expectedCollateralOut <= 0
      || call.minOut < ComputeMinRequiredOut(call.debtToCover)
      || rpc.client.fees == None || rpc.client.pendingNonce == None
    then OnlyNoted(Failed, record, made)
    else
      && |made| == 1 && record.status == made[0].status
      && record.nonce == rpc.pendingNonce && made[0].nonce == rpc.client.pendingNonce.value
      && (forall t :: t in made[0].signed ==> t.call == call)
      && (made[0].status == Failed ==> record.txHash == None)
      && (made[0].status == Pending ==>
            made[0].sent != [] && record.txHash == Some(made[0].sent[|made[0].sent| - 1]))
      && (made[0].status == Included || made[0].status == Reverted ==>
            record.txHash.Some? && record.txHash.value in made[0].sent)
  }

  /**
   What an execution behind the guard does, by what it finds: a cached plan in live mode is the one sent; a
   planner error, no candidate and a dry run are only noted; else the first candidate whose quote leaves the
   largest surplus is sent, or an error noted if no quote leaves any.
   */
  ghost predicate Outcome(user: string, payout: string, prepared: Option<C.PreparedPlan>,
                          planned: Option<seq<P.CandidatePlan>>, quotes: seq<Option<Quote>>, executionEnabled: bool,
                          rpc: Lookups, record: AttemptRecord, made: seq<Attempt>)
    requires planned.Some? ==> |quotes| == |planned.value|
  {
    && (prepared == None && planned == None ==> OnlyNoted(Error, record, made))
    && (prepared == None && planned.Some? && planned.value == [] ==> OnlyNoted(SkipNoPair, record, made))
    && (!executionEnabled && (prepared.Some? || (planned.Some? && planned.value != [])) ==>
          OnlyNoted(Sent, record, made))
    && (executionEnabled && prepared.Some? ==>
          var p := prepared.value;
          Carried(LiquidationCall(user, p.collateralAsset, p.debtAsset, p.debtToCover, p.oneInchCalldata, p.minOut,
                                  payout),
                  p.expectedCollateralOut, rpc, record, made))
    && (executionEnabled && prepared == None && planned.Some? && planned.value != [] ==>
          if exists i :: 0 <= i < |quotes| && LeavesSurplus(planned.value[i], quotes[i]) then
            exists i: nat :: IsBest(planned.value, quotes, i) && CarriedFresh(user, payout, planned.value[i],
                                                                             quotes[i].value, rpc, record, made)
          else OnlyNoted(Error, record, made))
  }

  ghost predicate CarriedFresh(user: string, payout: string, c: P.CandidatePlan, q: Quote, rpc: Lookups,
                               record: AttemptRecord, made: seq<Attempt>)
  {
    Carried(LiquidationCall(user, c.collateralAsset, c.debtAsset, c.debtToCover, q.data, q.minOut, payout),
            c.expectedCollateralOut, rpc, record, made)
  }

  /** The same for the decision between the branches. */
  ghost predicate FitsInputs(d: Decision, prepared: Option<C.PreparedPlan>, planned: Option<seq<P.CandidatePlan>>,
                             quotes: seq<Option<Quote>>, executionEnabled: bool)
    requires planned.Some? ==> |quotes| == |planned.value|
  {
    && (prepared == None && planned == None ==> d == Note(Error))
    && (prepared == None && planned.Some? && planned.value == [] ==> d == Note(SkipNoPair))
    && (!executionEnabled && (prepared.Some? || (planned.Some? && planned.value != [])) ==> d == Note(Sent))
    && (executionEnabled && prepared.Some? ==>
          var p := prepared.value;
          && d.Try? && d.candidate.minOut == p.minOut && d.candidate.swapData == p.oneInchCalldata
          && d.candidate.candidate.collateralAsset == p.collateralAsset
          && d.candidate.candidate.debtAsset == p.debtAsset
          && d.candidate.candidate.debtToCover == p.debtToCover
          && d.candidate.candidate.expectedCollateralOut == p.expectedCollateralOut)
    && (executionEnabled && prepared == None && planned.Some? && planned.value != [] ==>
          if exists i :: 0 <= i < |quotes| && LeavesSurplus(planned.value[i], quotes[i]) then
            d.Try? && exists i: nat :: IsBest(planned.value, quotes, i) && IsQuoteOf(d.candidate, planned.value[i],
                                                                                    quotes[i].value)
          else d == Note(Error))
  }

  ghost predicate IsQuoteOf(v: QuotedCandidate, c: P.CandidatePlan, q: Quote) {
    v.candidate == c && v.minOut == q.minOut && v.swapData == q.data
  }

  ghost predicate FitsDecision(d: Decision, user: string, payout: string, rpc: Lookups, record: AttemptRecord,
                               made: seq<Attempt>)
  {
    match d
    case Note(status) => OnlyNoted(status, record, made)
    case Try(v) =>
      Carried(LiquidationCall(user, v.candidate.collateralAsset, v.candidate.debtAsset, v.candidate.debtToCover,
                              v.swapData, v.minOut, payout),
              v.candidate.expectedCollateralOut, rpc, record, made)
  }

  lemma DecisionGivesOutcome(d: Decision, user: string, payout: string, prepared: Option<C.PreparedPlan>,
                             planned: Option<seq<P.CandidatePlan>>, quotes: seq<Option<Quote>>, executionEnabled: bool,
                             rpc: Lookups, record: AttemptRecord, made: seq<Attempt>)
    requires planned.Some? ==> |quotes| == |planned.value|
    requires FitsInputs(d, prepared, planned, quotes, executionEnabled)
    requires FitsDecision(d, user, payout, rpc, record, made)
    ensures Outcome(user, payout, prepared, planned, quotes, executionEnabled, rpc, record, made)
  {
    if executionEnabled && prepared == None && planned.Some? && planned.value != [] && d.Try? {
      var i: nat :| IsBest(planned.value, quotes, i) && IsQuoteOf(d.candidate, planned.value[i], quotes[i].value);
      assert CarriedFresh(user, payout, planned.value[i], quotes[i].value, rpc, record, made);
    }
  }

  /** Nothing was said to the nodes without an attempt, and to all of them exactly what the attempt signed. */
  ghost predicate Said(before: seq<Exchange>, after: seq<Exchange>, providers: nat, made: seq<Attempt>) {
    && before <= after
    && (made == [] ==> after == before)
    && (made != [] ==>
          var talk := after[|before|..];
          && OfferedTxs(talk) == made[0].signed && AcceptedTxs(talk) == made[0].sent
          && forall x :: x in talk && x.Offered? ==> |x.accepts| == providers)
  }

  // ----- One execution, as seen from its user -----

  /** A call of the broadcaster for the user: what it signed, what was accepted, and how it was recorded. */
  datatype Attempt = Attempt(nonce: nat, signed: seq<Tx>, sent: seq<Tx>, status: AttemptStatus)

  function RecordedStatus(result: E.ExecutionResult): AttemptStatus {
    match result
    case Mined(_) => Included
    case Pending(_) => Pending
    case Failed(_, t) => if t.Some? then Reverted else Failed
  }

  function RecordedHash(result: E.ExecutionResult): Option<Tx> {
    match result
    case Mined(t) => Some(t)
    case Pending(t) => Some(t)
    case Failed(_, t) => t
  }

  /** A call of the broadcaster as an attempt. */
  ghost function AttemptOf(job: B.Job, p: B.Progress, r: B.BroadcastResult): Attempt {
    Attempt(job.nonce, p.signed, p.sent, RecordedStatus(E.ResultOf(r)))
  }

  /** The chain, the user's full log and the user's broadcaster calls. */
  datatype UserState = UserState(chain: ChainState, log: seq<AttemptRecord>, attempts: seq<Attempt>)

  ghost predicate Idle(user: string, s: UserState, t: UserState) {
    OthersOnly(s.chain, t.chain, user) && t.log == s.log && t.attempts == s.attempts
  }

  /** An execution that broadcasts nothing but leaves a record. */
  ghost predicate RecordsOnly(user: string, s: UserState, t: UserState) {
    && !PendingLast(s.log)
    && OthersOnly(s.chain, t.chain, user)
    && |t.log| == |s.log| + 1 && t.log[..|s.log|] == s.log
    && t.log[|s.log|].status != Pending && t.log[|s.log|].txHash == None
    && t.attempts == s.attempts
  }

  /** An execution that calls the broadcaster with a repayable liquidation of the user. */
  ghost predicate CallsBroadcaster(user: string, canSign: bool, s: UserState, t: UserState,
                                   job: B.Job, mid: ChainState, clock: nat, es: B.Trace, r: B.BroadcastResult)
  {
    && !PendingLast(s.log)
    && OthersOnly(s.chain, mid, user)
    && job.call.user == user && E.Repayable(job.call) && job.canSign == canSign
    && B.Returns(job, mid, clock, es, r)
    && OthersOnly(B.End(job, mid, clock, es).chain, t.chain, user)
    && |t.log| == |s.log| + 1 && t.log[..|s.log|] == s.log
    && t.log[|s.log|].status == RecordedStatus(E.ResultOf(r)) && t.log[|s.log|].txHash == RecordedHash(E.ResultOf(r))
    && t.attempts == s.attempts + [AttemptOf(job, B.End(job, mid, clock, es).progress, r)]
  }

  /** One atomic stretch of the user's run; other users may act all the while. */
  ghost predicate Executes(user: string, canSign: bool, s: UserState, t: UserState) {
    || Idle(user, s, t)
    || RecordsOnly(user, s, t)
    || exists job, mid, clock, es, r :: CallsBroadcaster(user, canSign, s, t, job, mid, clock, es, r)
  }

  // ----- Whole runs of one user -----

  /** A call that got a transaction accepted and whose nonce nobody has used yet. */
  ghost predicate Unresolved(a: Attempt, c: ChainState) {
    a.sent != [] && a.nonce !in c.consumed
  }

  /** The attempt's nonce went to one of its accepted transactions, with this outcome. */
  ghost predicate ConsumedBy(a: Attempt, c: ChainState, success: bool) {
    a.nonce in c.consumed && exists t :: t in a.sent && c.consumed[a.nonce] == Own(t, success)
  }

  ghost predicate OutcomeHolds(a: Attempt, c: ChainState) {
    match a.status
    case Included => ConsumedBy(a, c, true)
    case Reverted => ConsumedBy(a, c, false)
    case Failed => a.sent == []
    case Pending => a.sent != []
    case _ => false
  }

  ghost predicate AttemptHolds(user: string, a: Attempt, c: ChainState) {
    && OutcomeHolds(a, c)
    && (forall t :: t in a.signed ==> t.nonce == a.nonce && t.call.user == user && E.Repayable(t.call))
    && (forall t :: t in a.sent ==> t in a.signed && t in c.accepted)
  }

  ghost predicate UserInvariant(user: string, s: UserState) {
    && WellFormed(s.chain)
    && (forall a :: a in s.attempts ==> AttemptHolds(user, a, s.chain))
    && (forall t :: t in s.chain.accepted && t.call.user == user ==> exists a :: a in s.attempts && t in a.sent)
    && (forall k :: 0 <= k < |s.attempts| && s.attempts[k].status == Pending ==>
          k == |s.attempts| - 1 && PendingLast(s.log))
    && (PendingLast(s.log) ==> s.attempts != [] && s.attempts[|s.attempts| - 1].status == Pending)
  }

  /** A user no transaction was ever accepted for. */
  ghost predicate Initial(user: string, s: UserState) {
    && WellFormed(s.chain)
    && (forall t :: t in s.chain.accepted ==> t.call.user != user)
    && s.log == [] && s.attempts == []
  }

  lemma LaterChainKeepsAttempts(user: string, s: UserState, later: ChainState)
    requires UserInvariant(user, s) && OthersOnly(s.chain, later, user)
    ensures UserInvariant(user, s.(chain := later))
  {
    forall a | a in s.attempts ensures AttemptHolds(user, a, later) {
      assert AttemptHolds(user, a, s.chain);
    }
  }

  /** The broadcaster's guarantee as an attempt: its outcome holds and only its own transactions are new. */
  lemma CallYieldsAttempt(user: string, s: UserState, t: UserState,
                          job: B.Job, mid: ChainState, clock: nat, es: B.Trace, r: B.BroadcastResult)
    requires WellFormed(s.chain) && CallsBroadcaster(user, true, s, t, job, mid, clock, es, r)
    ensures AttemptHolds(user, t.attempts[|s.attempts|], B.End(job, mid, clock, es).chain)
    ensures forall x :: x in B.End(job, mid, clock, es).chain.accepted && x.call.user == user ==>
      x in s.chain.accepted || x in t.attempts[|s.attempts|].sent
    ensures Follows(s.chain, B.End(job, mid, clock, es).chain)
  {
    B.EveryResultIsTrue(job, mid, clock, es, r);
    B.RunKeepsInvariant(job, mid, clock, es);
  }

  lemma CallKeepsInvariant(user: string, s: UserState, t: UserState,
                           job: B.Job, mid: ChainState, clock: nat, es: B.Trace, r: B.BroadcastResult)
    requires UserInvariant(user, s) && CallsBroadcaster(user, true, s, t, job, mid, clock, es, r)
    ensures UserInvariant(user, t)
  {
    CallYieldsAttempt(user, s, t, job, mid, clock, es, r);
    var end := B.End(job, mid, clock, es).chain;
    var made := t.attempts[|s.attempts|];
    var u := UserState(end, t.log, t.attempts);
    forall a | a in t.attempts ensures AttemptHolds(user, a, end) {
      if a in s.attempts { assert AttemptHolds(user, a, s.chain); }
    }
    forall x | x in end.accepted && x.call.user == user ensures exists a :: a in t.attempts && x in a.sent {
      if x in s.chain.accepted {
        var a :| a in s.attempts && x in a.sent;
        assert a in t.attempts;
      } else {
        assert made in t.attempts;
      }
    }
    assert UserInvariant(user, u);
    LaterChainKeepsAttempts(user, u, t.chain);
  }

  lemma ExecutionKeepsInvariant(user: string, s: UserState, t: UserState)
    requires UserInvariant(user, s) && Executes(user, true, s, t)
    ensures UserInvariant(user, t)
  {
    if Idle(user, s, t) || RecordsOnly(user, s, t) {
      LaterChainKeepsAttempts(user, s, t.chain);
    } else {
      var job, mid, clock, es, r :| CallsBroadcaster(user, true, s, t, job, mid, clock, es, r);
      CallKeepsInvariant(user, s, t, job, mid, clock, es, r);
    }
  }

  /** A run in which the user's executions do not overlap. */
  ghost predicate BehaviourWith(user: string, canSign: bool, states: seq<UserState>) {
    && states != [] && Initial(user, states[0])
    && forall i :: 0 <= i < |states| - 1 ==> Executes(user, canSign, states[i], states[i + 1])
  }

  /** Such a run with a signer that works. */
  ghost predicate Behaviour(user: string, states: seq<UserState>) {
    BehaviourWith(user, true, states)
  }

  lemma {:induction false} BehaviourKeepsInvariant(user: string, states: seq<UserState>, i: nat)
    requires Behaviour(user, states) && i < |states|
    ensures UserInvariant(user, states[i])
  {
    if i > 0 {
      BehaviourKeepsInvariant(user, states, i - 1);
      ExecutionKeepsInvariant(user, states[i - 1], states[i]);
    }
  }

  /** In every run each user has at most one unresolved attempt: the last one, recorded pending. */
  lemma AtMostOneUnresolved(user: string, states: seq<UserState>, i: nat, k: nat)
    requires Behaviour(user, states) && i < |states| && k < |states[i].attempts|
    requires Unresolved(states[i].attempts[k], states[i].chain)
    ensures k == |states[i].attempts| - 1 && PendingLast(states[i].log)
  {
    BehaviourKeepsInvariant(user, states, i);
    assert AttemptHolds(user, states[i].attempts[k], states[i].chain);
  }

  /** Unresolved attempts of a run are alone, last and recorded pending. */
  ghost predicate GuardHolds(states: seq<UserState>) {
    forall i, k :: 0 <= i < |states| && 0 <= k < |states[i].attempts| ==>
      Unresolved(states[i].attempts[k], states[i].chain) ==>
        k == |states[i].attempts| - 1 && PendingLast(states[i].log)
  }

  /** One execution whose signer throws after an accepted broadcast: recorded failed, yet unresolved. */
  lemma ThrowingExecution(user: string, s: UserState, nonce: nat) returns (t: UserState)
    requires WellFormed(s.chain) && !PendingLast(s.log)
    requires nonce !in s.chain.consumed && forall x :: x in s.chain.accepted ==> x.nonce != nonce
    ensures Executes(user, false, s, t)
    ensures t.chain.consumed == s.chain.consumed && WellFormed(t.chain)
    ensures forall x :: x in t.chain.accepted ==> x in s.chain.accepted || x.nonce == nonce
    ensures |t.attempts| == |s.attempts| + 1 && t.attempts[..|s.attempts|] == s.attempts
    ensures Unresolved(t.attempts[|s.attempts|], t.chain) && !PendingLast(t.log)
  {
    var job := B.Job(LiquidationCall(user, "", "", 1, "", 1, ""), nonce, 5, 5, B.Options(3000, 3, 20), false);
    var es, later := B.ThrowingSignerHidesLiveTransaction(job, s.chain, 0);
    var r := B.Failed(B.Threw, None);
    var w := B.End(job, s.chain, 0, es);
    B.RunKeepsInvariant(job, s.chain, 0, es);
    t := UserState(w.chain, s.log + [AttemptRecord(user, 0, Failed, None, None)],
                   s.attempts + [AttemptOf(job, w.progress, r)]);
    assert E.Repayable(job.call);
    assert CallsBroadcaster(user, false, s, t, job, s.chain, 0, es, r);
  }

  lemma GuardHoldsWithSigner(user: string, states: seq<UserState>)
    requires Behaviour(user, states)
    ensures GuardHolds(states)
  {
    forall i, k | 0 <= i < |states| && 0 <= k < |states[i].attempts|
        && Unresolved(states[i].attempts[k], states[i].chain)
      ensures k == |states[i].attempts| - 1 && PendingLast(states[i].log)
    {
      AtMostOneUnresolved(user, states, i, k);
    }
  }

  /** Exactly when the guard holds in every run: when the signer never throws. */
  lemma GuardHoldsIff(user: string, canSign: bool)
    ensures (forall states :: BehaviourWith(user, canSign, states) ==> GuardHolds(states)) <==> canSign
  {
    if canSign {
      forall states: seq<UserState> | BehaviourWith(user, canSign, states) ensures GuardHolds(states) {
        GuardHoldsWithSigner(user, states);
      }
    } else {
      var s0 := UserState(ChainState({}, map[]), [], []);
      var s1 := ThrowingExecution(user, s0, 0);
      var s2 := ThrowingExecution(user, s1, 1);
      var states := [s0, s1, s2];
      assert states[0] == s0 && states[1] == s1 && states[2] == s2;
      assert BehaviourWith(user, false, states);
      assert s2.attempts[0] == s1.attempts[0];
      assert Unresolved(states[2].attempts[0], states[2].chain) && Unresolved(states[2].attempts[1], states[2].chain);
      assert !GuardHolds(states);
    }
  }

  ghost predicate SameForUser(user: string, c: ChainState, later: ChainState) {
    forall t: Tx :: t.call.user == user ==> (t in later.accepted <==> t in c.accepted)
  }

  /** Once an attempt is recorded pending, nothing is recorded or sent for the user ever again. */
  lemma {:induction false} PendingBlocksForever(user: string, states: seq<UserState>, i: nat, j: nat)
    requires Behaviour(user, states) && i <= j < |states|
    requires PendingLast(states[i].log)
    ensures states[j].log == states[i].log && states[j].attempts == states[i].attempts
    ensures SameForUser(user, states[i].chain, states[j].chain)
    decreases j
  {
    if i < j {
      PendingBlocksForever(user, states, i, j - 1);
      assert Executes(user, true, states[j - 1], states[j - 1 + 1]);
      assert Idle(user, states[j - 1], states[j]);
    }
  }

  lemma {:induction false} RunsOnlyGrow(user: string, states: seq<UserState>, i: nat, j: nat)
    requires Behaviour(user, states) && i <= j < |states|
    ensures states[i].attempts <= states[j].attempts
    ensures Follows(states[i].chain, states[j].chain)
    decreases j
  {
    BehaviourKeepsInvariant(user, states, i);
    if i < j {
      RunsOnlyGrow(user, states, i, j - 1);
      BehaviourKeepsInvariant(user, states, j - 1);
      var s, t := states[j - 1], states[j];
      assert Executes(user, true, states[j - 1], states[j - 1 + 1]);
      if !(Idle(user, s, t) || RecordsOnly(user, s, t)) {
        var job, mid, clock, es, r :| CallsBroadcaster(user, true, s, t, job, mid, clock, es, r);
        CallYieldsAttempt(user, s, t, job, mid, clock, es, r);
      }
    }
  }

  /**
   Every outcome that is not pending is final. Whether a transaction the attempt signed succeeded never
   changes afterwards; only one that every RPC refused can still succeed, and only if a later attempt of
   the user gets that very transaction accepted.
   */
  lemma OutcomesAreFinal(user: string, states: seq<UserState>, i: nat, j: nat, k: nat, tx: Tx)
    requires Behaviour(user, states) && i <= j < |states| && k < |states[i].attempts|
    requires states[i].attempts[k].status != Pending && tx in states[i].attempts[k].signed
    ensures k < |states[j].attempts| && states[j].attempts[k] == states[i].attempts[k]
    ensures Succeeded(states[i].chain, tx) ==> Succeeded(states[j].chain, tx)
    ensures Succeeded(states[j].chain, tx) ==>
      || Succeeded(states[i].chain, tx)
      || (states[i].attempts[k].status == Failed
          && exists l :: k < l < |states[j].attempts| && tx in states[j].attempts[l].sent)
    ensures states[i].attempts[k].status == Reverted ==> !Succeeded(states[j].chain, tx)
  {
    BehaviourKeepsInvariant(user, states, i);
    BehaviourKeepsInvariant(user, states, j);
    RunsOnlyGrow(user, states, i, j);
    var a := states[i].attempts[k];
    assert AttemptHolds(user, a, states[i].chain);
    if a.nonce !in states[i].chain.consumed && Succeeded(states[j].chain, tx) {
      var l := SuccessWasSent(user, states[j], tx);
      assert AttemptHolds(user, states[j].attempts[l], states[j].chain);
      SentAttemptsAreSettled(user, states[i]);
    }
  }

  lemma SentAttemptsAreSettled(user: string, s: UserState)
    requires UserInvariant(user, s)
    ensures forall a :: a in s.attempts && a.status != Pending && a.sent != [] ==> a.nonce in s.chain.consumed
  {
    forall a | a in s.attempts && a.status != Pending && a.sent != [] ensures a.nonce in s.chain.consumed {
      assert AttemptHolds(user, a, s.chain);
    }
  }

  /** A successful transaction of the user was accepted in one of the user's attempts. */
  lemma SuccessWasSent(user: string, s: UserState, tx: Tx) returns (l: nat)
    requires UserInvariant(user, s) && tx.call.user == user && Succeeded(s.chain, tx)
    ensures l < |s.attempts| && tx in s.attempts[l].sent
  {
    assert tx in s.chain.accepted;
    var a :| a in s.attempts && tx in a.sent;
    l :| 0 <= l < |s.attempts| && s.attempts[l] == a;
  }

  /** In a run, a nonce nobody has used yet is free: no earlier transaction of the user is still fighting for it. */
  lemma FreshNonceIsFree(user: string, s: UserState, job: B.Job)
    requires UserInvariant(user, s) && !PendingLast(s.log)
    requires job.call.user == user && job.nonce !in s.chain.consumed
    ensures B.NonceIsFree(job, s.chain)
  {
    forall t | t in s.chain.accepted && t.call.user == user ensures t.nonce != job.nonce {
      var a :| a in s.attempts && t in a.sent;
      assert AttemptHolds(user, a, s.chain);
    }
  }

  /** So every failed call of a run on an unused nonce is final: nothing it signed can succeed by itself. */
  lemma FailedCallsAreFinal(user: string, states: seq<UserState>, i: nat, t: UserState,
                            job: B.Job, mid: ChainState, clock: nat, es: B.Trace, r: B.BroadcastResult)
    requires Behaviour(user, states) && i < |states|
    requires CallsBroadcaster(user, true, states[i], t, job, mid, clock, es, r)
    requires r.Failed? && job.nonce !in mid.consumed
    ensures B.NothingCanSucceed(job, B.End(job, mid, clock, es))
  {
    BehaviourKeepsInvariant(user, states, i);
    LaterChainKeepsAttempts(user, states[i], mid);
    FreshNonceIsFree(user, states[i].(chain := mid), job);
    B.FailureIsFinal(job, mid, clock, es, r);
  }

  /** Every transaction any node ever accepted for the user repays debt, fee and buffer. */
  lemma AcceptedTransactionsAreRepayable(user: string, states: seq<UserState>, i: nat, tx: Tx)
    requires Behaviour(user, states) && i < |states|
    requires tx in states[i].chain.accepted && tx.call.user == user
    ensures E.Repayable(tx.call)
  {
    BehaviourKeepsInvariant(user, states, i);
    var a :| a in states[i].attempts && tx in a.sent;
    assert AttemptHolds(user, a, states[i].chain);
  }

  // ----- The closure -----

  /** A step of the user's run, whatever attempts came before; `made` are those it adds. */
  ghost predicate IsStep(user: string, canSign: bool, c: ChainState, entries: seq<AttemptRecord>,
                         later: ChainState, entries': seq<AttemptRecord>, made: seq<Attempt>)
  {
    forall attempts ::
      Executes(user, canSign, UserState(c, entries, attempts), UserState(later, entries', attempts + made))
  }

  lemma SkipIsStep(user: string, canSign: bool, c: ChainState, entries: seq<AttemptRecord>)
    requires WellFormed(c)
    ensures IsStep(user, canSign, c, entries, c, entries, [])
  {
    forall attempts: seq<Attempt>
      ensures Executes(user, canSign, UserState(c, entries, attempts), UserState(c, entries, attempts + []))
    {
      assert attempts + [] == attempts;
    }
  }

  lemma RecordIsStep(user: string, canSign: bool, c: ChainState, entries: seq<AttemptRecord>, later: ChainState,
                     record: AttemptRecord)
    requires !PendingLast(entries) && OthersOnly(c, later, user)
    requires record.status != Pending && record.txHash == None
    ensures IsStep(user, canSign, c, entries, later, entries + [record], [])
  {
    forall attempts: seq<Attempt>
      ensures Executes(user, canSign, UserState(c, entries, attempts),
                       UserState(later, entries + [record], attempts + []))
    {
      assert attempts + [] == attempts;
      assert RecordsOnly(user, UserState(c, entries, attempts), UserState(later, entries + [record], attempts));
    }
  }

  lemma CallIsStep(user: string, canSign: bool, c: ChainState, entries: seq<AttemptRecord>, record: AttemptRecord,
                   job: B.Job, mid: ChainState, clock: nat, es: B.Trace, r: B.BroadcastResult)
    requires !PendingLast(entries) && OthersOnly(c, mid, user)
    requires job.call.user == user && E.Repayable(job.call) && job.canSign == canSign
    requires B.Returns(job, mid, clock, es, r)
    requires record.status == RecordedStatus(E.ResultOf(r)) && record.txHash == RecordedHash(E.ResultOf(r))
    ensures var w := B.End(job, mid, clock, es);
      IsStep(user, canSign, c, entries, w.chain, entries + [record], [AttemptOf(job, w.progress, r)])
  {
    var w := B.End(job, mid, clock, es);
    B.RunKeepsInvariant(job, mid, clock, es);
    forall attempts: seq<Attempt>
      ensures Executes(user, canSign, UserState(c, entries, attempts),
                       UserState(w.chain, entries + [record], attempts + [AttemptOf(job, w.progress, r)]))
    {
      assert CallsBroadcaster(user, canSign, UserState(c, entries, attempts),
                              UserState(w.chain, entries + [record], attempts + [AttemptOf(job, w.progress, r)]),
                              job, mid, clock, es, r);
    }
  }

  lemma SentIsStep(user: string, canSign: bool, c: ChainState, entries: seq<AttemptRecord>, record: AttemptRecord,
                   result: E.ExecutionResult, job: B.Job, mid: ChainState, clock: nat, es: B.Trace)
    returns (made: seq<Attempt>)
    requires !PendingLast(entries) && WellFormed(mid) && OthersOnly(c, mid, user) && job.call.user == user
    requires job.call.debtToCover > 0 && job.call.minOut >= ComputeMinRequiredOut(job.call.debtToCover)
    requires job.canSign == canSign
    requires exists r :: B.Returns(job, mid, clock, es, r) && E.SameOutcome(r, result)
    requires record.status == RecordedStatus(result) && record.txHash == RecordedHash(result)
    ensures IsStep(user, canSign, c, entries, B.End(job, mid, clock, es).chain, entries + [record], made)
    ensures |made| == 1 && made[0].status == record.status && made[0].nonce == job.nonce
    ensures |made| == 1 && made[0].signed == B.End(job, mid, clock, es).progress.signed
    ensures |made| == 1 && made[0].sent == B.End(job, mid, clock, es).progress.sent
    ensures forall t :: |made| == 1 && t in made[0].signed ==> t.call == job.call
    ensures record.status == Failed ==> record.txHash == None
    ensures record.status == Pending ==>
      |made| == 1 && made[0].sent != [] && record.txHash == Some(made[0].sent[|made[0].sent| - 1])
    ensures record.status == Included || record.status == Reverted ==>
      |made| == 1 && record.txHash.Some? && record.txHash.value in made[0].sent
  {
    var r :| B.Returns(job, mid, clock, es, r) && E.SameOutcome(r, result);
    RequirementBounds(job.call.debtToCover);
    CallIsStep(user, canSign, c, entries, record, job, mid, clock, es, r);
    B.RunKeepsInvariant(job, mid, clock, es);
    made := [AttemptOf(job, B.End(job, mid, clock, es).progress, r)];
  }

  lemma OthersCompose(c: ChainState, mid: ChainState, later: ChainState, user: string)
    requires OthersOnly(c, mid, user) && OthersOnly(mid, later, user)
    ensures OthersOnly(c, later, user)
  {
  }

  class Pipeline {
    const node: Node
    const attemptHistory: H.AttemptHistory
    const planCache: C.PlanCache
    const planner: P.Planner
    const executorClient: E.ExecutorClient
    const executionEnabled: bool
    /** Everything ever recorded, for all users; the history keeps a window of it. */
    ghost var log: seq<AttemptRecord>

    constructor (node: Node, executorClient: E.ExecutorClient, executionEnabled: bool, planTtlMs: int,
                 planMaxUsers: int)
      requires WellFormed(node.chain)
      ensures this.node == node && this.executorClient == executorClient && this.executionEnabled == executionEnabled
      ensures Valid() && log == []
    {
      this.node, this.executorClient, this.executionEnabled := node, executorClient, executionEnabled;
      attemptHistory := new H.AttemptHistory();
      planCache := new C.PlanCache(planTtlMs, planMaxUsers);
      planner := new P.Planner();
      log := [];
    }

    ghost predicate Valid()
      reads this, node, attemptHistory, planCache
    {
      WellFormed(node.chain) && attemptHistory.history == Replay(log) && C.OnePerUser(planCache.cache)
    }

    /** While the closure awaits, other users are executed and recorded and plans are prepared for anyone. */
    method Interfere(user: string)
      requires Valid()
      modifies this, node, attemptHistory, planCache
      ensures Valid()
      ensures OthersOnly(old(node.chain), node.chain, user) && node.talk == old(node.talk)
      ensures OfUser(log, user) == OfUser(old(log), user)
    {
      node.Interfere(user);
      var n: int := *;
      while n > 0
        invariant Valid() && OthersOnly(old(node.chain), node.chain, user) && node.talk == old(node.talk)
        invariant OfUser(log, user) == OfUser(old(log), user)
      {
        var other: string, timestamp: int, status: AttemptStatus := *, *, *;
        if other != user && timestamp >= 0 {
          OfUserAppends(log, AttemptRecord(other, timestamp, status, None, None), user);
          Record(other, timestamp, status, None, None);
        }
        var plan: C.PreparedPlan := *;
        C.PrepareKeepsOnePerUser(planCache.cfg, planCache.Value(), plan);
        planCache.Prepare(plan);
        n := n - 1;
      }
    }

    method Record(user: string, timestamp: nat, status: AttemptStatus, txHash: Option<Tx>, nonce: Option<nat>)
      requires Valid()
      modifies this, attemptHistory
      ensures Valid()
      ensures log == old(log) + [AttemptRecord(user, timestamp, status, txHash, nonce)]
      ensures OfUser(log, user) == OfUser(old(log), user) + [AttemptRecord(user, timestamp, status, txHash, nonce)]
    {
      var record := AttemptRecord(user, timestamp, status, txHash, nonce);
      WindowIsTheLastTen(log, user);
      OfUserAppends(log, record, user);
      ReplayAppends(log, record);
      attemptHistory.Record(record);
      log := log + [record];
    }

    /**
     One execution of the closure is one step of the user's run. Behind the guard it does what `Outcome` says,
     with one more record; a dry run sends nothing; what is said to the nodes is exactly what the attempt
     signed; and once the executor was called - whether it then broadcast or refused - the user's plan is
     gone from the cache. The inputs are what the outside answers: the user's reserves (none if the fetch
     throws), the market data and the swap quotes.
     */
    method OnExecute(user: string, reserves: Option<seq<P.UserReserveData>>, prices: map<P.Address, nat>,
                     decimals: map<P.Address, nat>, fetched: map<P.Address, nat>, toNumber: int -> real,
                     quote: (nat, QuoteRequest) -> Option<Quote>, rpc: Lookups)
      returns (ghost made: seq<Attempt>, ghost planned: Option<seq<P.CandidatePlan>>, ghost quotes: seq<Option<Quote>>)
      requires Valid() && P.NumberLike(toNumber)
      modifies this, node, attemptHistory, planCache, planner
      ensures Valid()
      ensures IsStep(user, executorClient.canSign, old(node.chain), OfUser(old(log), user),
                     node.chain, OfUser(log, user), made)
      ensures PendingLast(OfUser(old(log), user)) ==>
        made == [] && log == old(log) && node.chain == old(node.chain) && node.talk == old(node.talk)
      ensures !executionEnabled ==>
        made == [] && OthersOnly(old(node.chain), node.chain, user) && node.talk == old(node.talk)
      ensures Said(old(node.talk), node.talk, executorClient.broadcaster.providers, made)
      ensures planned == None <==> reserves == None
      ensures planned.Some? ==> quotes == QuotesFor(planned.value, quote, executorClient.executorAddress)
      ensures var prepared := C.Got(planCache.cfg, old(planCache.Value()), user, old(node.clock)).1;
        PendingLast(OfUser(old(log), user)) || prepared.Some? || planned == None
        || P.BestPlans(planned.value, reserves.value, P.Market(prices, decimals, planner.reserveConfigCache), toNumber)
      ensures !PendingLast(OfUser(old(log), user)) ==>
        var prepared := C.Got(planCache.cfg, old(planCache.Value()), user, old(node.clock)).1;
        && |OfUser(log, user)| == |OfUser(old(log), user)| + 1
        && Outcome(user, executorClient.wallet, prepared, planned, quotes, executionEnabled, rpc,
                   OfUser(log, user)[|OfUser(old(log), user)|], made)
      ensures var prepared := C.Got(planCache.cfg, old(planCache.Value()), user, old(node.clock)).1;
        PendingLast(OfUser(old(log), user)) || !executionEnabled || rpc.pendingNonce == None
        || (prepared == None && (planned == None || forall i :: 0 <= i < |quotes| ==>
              !LeavesSurplus(planned.value[i], quotes[i])))
        || C.Find(planCache.cache, user) == None
    {
      made, planned, quotes := [], if reserves.Some? then Some([]) else None, [];
      WindowIsTheLastTen(log, user);
      var hasPending := attemptHistory.HasPending(user);
      if hasPending {
        SkipIsStep(user, executorClient.canSign, node.chain, OfUser(log, user));
        return;
      }
      made, planned, quotes := Proceed(user, reserves, prices, decimals, fetched, toNumber, quote, rpc);
    }

    /** The closure once the guard lets the user through. */
    method Proceed(user: string, reserves: Option<seq<P.UserReserveData>>, prices: map<P.Address, nat>,
                   decimals: map<P.Address, nat>, fetched: map<P.Address, nat>, toNumber: int -> real,
                   quote: (nat, QuoteRequest) -> Option<Quote>, rpc: Lookups)
      returns (ghost made: seq<Attempt>, ghost planned: Option<seq<P.CandidatePlan>>, ghost quotes: seq<Option<Quote>>)
      requires Valid() && P.NumberLike(toNumber) && !PendingLast(OfUser(log, user))
      modifies this, node, attemptHistory, planCache, planner
      ensures Valid()
      ensures IsStep(user, executorClient.canSign, old(node.chain), OfUser(old(log), user),
                     node.chain, OfUser(log, user), made)
      ensures !executionEnabled ==>
        made == [] && OthersOnly(old(node.chain), node.chain, user) && node.talk == old(node.talk)
      ensures Said(old(node.talk), node.talk, executorClient.broadcaster.providers, made)
      ensures planned == None <==> reserves == None
      ensures planned.Some? ==> quotes == QuotesFor(planned.value, quote, executorClient.executorAddress)
      ensures var prepared := C.Got(planCache.cfg, old(planCache.Value()), user, old(node.clock)).1;
        prepared.Some? || planned == None
        || P.BestPlans(planned.value, reserves.value, P.Market(prices, decimals, planner.reserveConfigCache), toNumber)
      ensures var prepared := C.Got(planCache.cfg, old(planCache.Value()), user, old(node.clock)).1;
        && |OfUser(log, user)| == |OfUser(old(log), user)| + 1
        && Outcome(user, executorClient.wallet, prepared, planned, quotes, executionEnabled, rpc,
                   OfUser(log, user)[|OfUser(old(log), user)|], made)
      ensures var prepared := C.Got(planCache.cfg, old(planCache.Value()), user, old(node.clock)).1;
        !executionEnabled || rpc.pendingNonce == None
        || (prepared == None && (planned == None || forall i :: 0 <= i < |quotes| ==>
              !LeavesSurplus(planned.value[i], quotes[i])))
        || C.Find(planCache.cache, user) == None
    {
      ghost var before := node.chain;
      var preparedPlan, candidates := Gather(user, reserves, prices, decimals, fetched, toNumber);
      planned := candidates;
      var decision;
      decision, quotes := MakeDecision(user, preparedPlan, candidates, quote);
      made := CarryOut(user, decision, rpc, before);
      DecisionGivesOutcome(decision, user, executorClient.wallet, preparedPlan, planned, quotes, executionEnabled, rpc,
                           OfUser(log, user)[|OfUser(log, user)| - 1], made);
    }

    /** The cached plan, or else fresh candidates. */
    method Gather(user: string, reserves: Option<seq<P.UserReserveData>>, prices: map<P.Address, nat>,
                  decimals: map<P.Address, nat>, fetched: map<P.Address, nat>, toNumber: int -> real)
      returns (preparedPlan: Option<C.PreparedPlan>, candidates: Option<seq<P.CandidatePlan>>)
      requires Valid() && P.NumberLike(toNumber)
      modifies this, node, attemptHistory, planCache, planner
      ensures Valid()
      ensures OthersOnly(old(node.chain), node.chain, user) && node.talk == old(node.talk)
      ensures OfUser(log, user) == OfUser(old(log), user)
      ensures preparedPlan == C.Got(planCache.cfg, old(planCache.Value()), user, old(node.clock)).1
      ensures candidates == None <==> reserves == None
      ensures preparedPlan == None && candidates.Some? ==>
        P.BestPlans(candidates.value, reserves.value, P.Market(prices, decimals, planner.reserveConfigCache), toNumber)
      ensures candidates.Some? ==> forall c :: c in candidates.value ==> P.Positive(c)
    {
      C.GetKeepsOnePerUser(planCache.cfg, planCache.Value(), user, node.clock);
      preparedPlan := planCache.Get(user, node.clock);
      Interfere(user);
      candidates := if reserves.Some? then Some([]) else None;
      if preparedPlan == None && reserves.Some? {
        var built := planner.BuildCandidatePlans(reserves.value, prices, decimals, fetched, toNumber);
        candidates := Some(built);
      }
    }

    method CarryOut(user: string, decision: Decision, rpc: Lookups, ghost before: ChainState)
      returns (ghost made: seq<Attempt>)
      requires Valid() && !PendingLast(OfUser(log, user)) && OthersOnly(before, node.chain, user)
      requires decision.Note? ==> decision.status != Pending
      modifies this, node, attemptHistory, planCache
      ensures Valid()
      ensures IsStep(user, executorClient.canSign, before, OfUser(old(log), user), node.chain, OfUser(log, user), made)
      ensures |OfUser(log, user)| == |OfUser(old(log), user)| + 1
      ensures FitsDecision(decision, user, executorClient.wallet, rpc,
                           OfUser(log, user)[|OfUser(old(log), user)|], made)
      ensures Said(old(node.talk), node.talk, executorClient.broadcaster.providers, made)
      ensures decision.Note? ==> made == [] && node.chain == old(node.chain) && node.talk == old(node.talk)
      ensures decision.Try? && rpc.pendingNonce.Some? ==> C.Find(planCache.cache, user) == None
    {
      match decision
      case Note(status) =>
        made := [];
        RecordOnly(user, status, before);
      case Try(chosen) =>
        made := Execute(user, chosen, rpc, before);
    }

    /** The choice between the prepared plan, a dry run, giving up and the best quoted candidate. */
    method MakeDecision(user: string, preparedPlan: Option<C.PreparedPlan>, planned: Option<seq<P.CandidatePlan>>,
                        quote: (nat, QuoteRequest) -> Option<Quote>)
      returns (decision: Decision, ghost quotes: seq<Option<Quote>>)
      requires planned.Some? ==> forall c :: c in planned.value ==> P.Positive(c)
      ensures planned.Some? ==> quotes == QuotesFor(planned.value, quote, executorClient.executorAddress)
      ensures FitsInputs(decision, preparedPlan, planned, quotes, executionEnabled)
      ensures decision.Note? ==> decision.status != Pending
      ensures decision.Try? && preparedPlan == None ==>
        E.PerformSafetyChecks(ParamsOf(user, decision.candidate, executorClient.wallet)) == E.Safe
    {
      quotes := if planned.Some? then QuotesFor(planned.value, quote, executorClient.executorAddress) else [];
      if preparedPlan == None && planned == None {
        return Note(Error), quotes;
      }
      var candidates := if preparedPlan.Some? then [PreparedCandidate(preparedPlan.value).candidate] else planned.value;
      if |candidates| == 0 {
        return Note(SkipNoPair), quotes;
      }
      if !executionEnabled {
        return Note(Sent), quotes;
      }
      if preparedPlan.Some? {
        return Try(PreparedCandidate(preparedPlan.value)), quotes;
      }
      var best := ChooseFresh(user, candidates, QuotesFor(candidates, quote, executorClient.executorAddress),
                              executorClient.wallet);
      decision := if best == None then Note(Error) else Try(best.value);
    }

    /** Records an execution that ends without a broadcast. */
    method RecordOnly(user: string, status: AttemptStatus, ghost before: ChainState)
      requires Valid() && !PendingLast(OfUser(log, user)) && OthersOnly(before, node.chain, user)
      requires status != Pending
      modifies this, attemptHistory
      ensures Valid()
      ensures IsStep(user, executorClient.canSign, before, OfUser(old(log), user), node.chain, OfUser(log, user), [])
      ensures |OfUser(log, user)| == |OfUser(old(log), user)| + 1
      ensures OnlyNoted(status, OfUser(log, user)[|OfUser(old(log), user)|], [])
    {
      ghost var entries := OfUser(log, user);
      Record(user, node.clock, status, None, None);
      RecordIsStep(user, executorClient.canSign, before, entries, node.chain,
                   AttemptRecord(user, node.clock, status, None, None));
    }

    /** Sends the chosen candidate, drops the user's plan and records the outcome. */
    method Execute(user: string, chosen: QuotedCandidate, rpc: Lookups, ghost before: ChainState)
      returns (ghost made: seq<Attempt>)
      requires Valid() && !PendingLast(OfUser(log, user)) && OthersOnly(before, node.chain, user)
      modifies this, node, attemptHistory, planCache
      ensures Valid()
      ensures IsStep(user, executorClient.canSign, before, OfUser(old(log), user), node.chain, OfUser(log, user), made)
      ensures |OfUser(log, user)| == |OfUser(old(log), user)| + 1
      ensures FitsDecision(Try(chosen), user, executorClient.wallet, rpc,
                           OfUser(log, user)[|OfUser(old(log), user)|], made)
      ensures Said(old(node.talk), node.talk, executorClient.broadcaster.providers, made)
      ensures rpc.pendingNonce.Some? ==> C.Find(planCache.cache, user) == None
    {
      made := [];
      ghost var entered := node.chain;
      Interfere(user);
      OthersCompose(before, entered, node.chain, user);
      if rpc.pendingNonce == None {
        RecordOnly(user, Error, before);
        return;
      }
      made := Send(user, chosen, rpc, before);
    }

    method Send(user: string, chosen: QuotedCandidate, rpc: Lookups, ghost before: ChainState)
      returns (ghost made: seq<Attempt>)
      requires Valid() && !PendingLast(OfUser(log, user)) && OthersOnly(before, node.chain, user)
      requires rpc.pendingNonce.Some?
      modifies this, node, attemptHistory, planCache
      ensures Valid()
      ensures IsStep(user, executorClient.canSign, before, OfUser(old(log), user), node.chain, OfUser(log, user), made)
      ensures |OfUser(log, user)| == |OfUser(old(log), user)| + 1
      ensures FitsDecision(Try(chosen), user, executorClient.wallet, rpc,
                           OfUser(log, user)[|OfUser(old(log), user)|], made)
      ensures Said(old(node.talk), node.talk, executorClient.broadcaster.providers, made)
      ensures C.Find(planCache.cache, user) == None
    {
      var params := ParamsOf(user, chosen, executorClient.wallet);
      ghost var mid, clock, entries := node.chain, node.clock, OfUser(log, user);
      var result;
      ghost var started, job, es;
      result, started, job, es := executorClient.AttemptLiquidation(node, params, rpc.client);
      C.InvalidateDropsTheUser(planCache.Value(), user);
      planCache.Invalidate(user);
      var status, txHash := RecordedStatus(result), RecordedHash(result);
      Record(user, node.clock, status, txHash, rpc.pendingNonce);
      ghost var record := AttemptRecord(user, node.clock, status, txHash, rpc.pendingNonce);
      if started {
        made := SentIsStep(user, executorClient.canSign, before, entries, record, result, job, mid, clock, es);
      } else {
        made := [];
        OthersCompose(before, mid, node.chain, user);
        RecordIsStep(user, executorClient.canSign, before, entries, node.chain, record);
      }
    }
  }
}
