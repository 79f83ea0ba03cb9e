# LiquidBot backend-v2: a verified model of the execution pipeline

The model follows a user from "marked dirty" to "liquidation transaction resolved": seeding and the
risk set, the dirty queue and the verifier loop, the predictive loop with its token index and plan
cache, the liquidation planner, the `onExecute` closure, and the broadcast-and-replace protocol.

| file | models |
|---|---|
| `Ordered.dfy`, `Arithmetic.dfy` | insertion-ordered sets and the stable sort; BigInt division |
| `Chain.dfy` | the chain: accepted transactions, and who consumed each nonce, once and for good |
| `FeeLadder.dfy`, `TxBroadcaster.dfy` | the fee bumps; one broadcaster call as an event machine and as the loop that refines it |
| `Safety.dfy`, `ExecutorClient.dfy` | repayment formulas, safety checks, the mapping of results |
| `AttemptHistory.dfy` | the ten-entry window per user |
| `ExecutionPipeline.dfy` | `onExecute`, and a user's attempts over a whole run |
| `LiquidationPlanner.dfy` | seized amounts, scoring, pair selection, candidate plans |
| `PlanCache.dfy`, `UserIndex.dfy`, `TokenExtractor.dfy` | the plan cache, the two-way index, token exposure |
| `RescoreTicks.dfy`, `PredictiveLoop.dfy` | concurrent price ticks over live sets; price updates and plan preparation |
| `HealthFactorChecker.dfy` | what a health-factor check reports for what the chain answers |
| `DirtyQueue.dfy`, `ActiveRiskSet.dfy`, `VerifierLoop.dfy` | the queue, the risk set and the verification tick |
| `SubgraphSeeder.dfy` | paginated seeding |

The contracts of the methods, and the laws behind the specification functions, are stated over inputs, maps and
what was said to the nodes, with the source's constants written out: `TxBroadcaster.Shows`,
`ExecutionPipeline.Outcome`, `LiquidationPlanner.ScoredFrom`, `ActiveRiskSet.WrittenBy` and
`PredictiveLoop.WritesOf` do not name the bodies they describe; what they do name is pinned down by lemmas of
its own, such as `Safety.RequirementIsTheSum` and the laws of the plan cache.

How the outside is modelled. Every await is a point where the rest of the world acts: `Node.Interfere`
lets blocks be mined, other users' transactions appear and time pass; `Pipeline.Interfere`,
`PredictiveLoop.Await` and `VerifierLoop.Interfere` do the same for the shared maps. RPC answers,
quotes, the accounts behind a health-factor check and page requests are arbitrary inputs. A user's run is stated against
other users as the `Others` steps of `TxBroadcaster`, and
`TxBroadcaster.OwnStepsAreOthersForTheRest` shows that each call is nothing more than that to the
other users, so the per-user results hold under every interleaving of users.

Where a promise of the code or its documentation does not hold, the exact condition is proved:

* `failed` is final exactly when the signer never throws (or there is no replacement):
  `TxBroadcaster.FailureIsFinalIff`; so is the one-unresolved-attempt guard:
  `ExecutionPipeline.GuardHoldsIff`. For a single `failed` result, by what happened in its call:
  `TxBroadcaster.FailedResultIsFinalIff`.
* `TX_BROADCASTER_CORRECTNESS.md` explains `pending` as "broadcast but not mined". That holds exactly for a
  negative number of replacements, so for no configuration that signs anything
  (`TxBroadcaster.PendingExcludesMinedIff`): a call whose first transaction was mined while its replacements
  are refused returns `pending` for that very transaction, with the executor's options too
  (`TxBroadcaster.PendingMayAlreadyBeMined`), and the guard then blocks the user for good
  (`ExecutionPipeline.PendingBlocksForever`).
* `README.md` of backend-v2 says users below `MIN_DEBT_USD` are filtered. The code rounds the minimum down to
  whole dollars, so over the checker's results this holds exactly for whole-dollar minimums
  (`ActiveRiskSet.ConfiguredMinimumHoldsIff`).
* A stored user without debt is one not checked yet exactly when the minimum is at least a dollar: below that
  a check that finds no debt leaves the user stored (`ActiveRiskSet.ZeroDebtMeansUncheckedIff`).
* The comment at `execution/txBroadcaster.ts:27` says the transaction is signed once; the code signs every
  attempt (line 113), and the model follows the code.
* A prepared plan is cached without looking at its net outcome, so the safety check may still reject it;
  when is `PredictiveLoop.PreparedPlansRoundTrip`.
* The nonce written to the attempt record is looked up separately from the one the broadcaster uses;
  `ExecutionPipeline.Carried`, part of the contract of `Pipeline.OnExecute`, keeps the two apart.

## Model

| member | source | states |
|---|---|---|
| FeeLadder.BumpRises | backend-v2/src/execution/txBroadcaster.ts:192-195 | a bump never lowers a fee, raises it exactly when the percentage is worth a wei, and keeps strict order |
| FeeLadder.LadderKeepsFeeValidity | backend-v2/src/execution/txBroadcaster.ts:98-99 | priority fee <= max fee holds after any number of bumps exactly when it holds at the start; fees never fall |
| FeeLadder.LadderClimbs | backend-v2/src/execution/txBroadcaster.ts:192-195 | from 5 wei on, 20% bumps make every rung strictly higher |
| FeeLadder.LadderBounds | backend-v2/src/execution/txBroadcaster.ts:192-195 | after k bumps of 20% a fee f lies between f(6/5)^k - 4((6/5)^k - 1) and f(6/5)^k |
| TxBroadcaster.RunKeepsInvariant | backend-v2/src/execution/txBroadcaster.ts:108-198 | over every run: one nonce and one call for all transactions, fees by the ladder, accepted ones on chain, nothing else broadcast for the user |
| TxBroadcaster.EveryResultIsTrue | backend-v2/src/execution/txBroadcaster.ts:126-190 | mined, pending and failed are true statements about the chain; pending only after all replacements; the tail result only for a negative maxReplacements |
| TxBroadcaster.AtMostOneLands | backend-v2/src/execution/txBroadcaster.ts:113-118 | at most one transaction of a call ever lands, in every future of the chain |
| TxBroadcaster.FailureIsFinal | backend-v2/src/execution/txBroadcaster.ts:138-143 | after a failed result no signed transaction can succeed until someone broadcasts for the user again |
| TxBroadcaster.ThrowingSignerHidesLiveTransaction | backend-v2/src/execution/txBroadcaster.ts:215-222 | an exception after an accepted broadcast is reported as failed without a hash although the transaction may still succeed |
| TxBroadcaster.FailureIsFinalIff | backend-v2/src/execution/txBroadcaster.ts:215-222 | failed is final in every run if and only if the signer never throws or there is no replacement |
| TxBroadcaster.FailedResultIsFinalIff | backend-v2/src/execution/txBroadcaster.ts:138-190 | one failed result is final exactly when nothing was accepted or the nonce is gone without a success of the call; reverted results always are |
| TxBroadcaster.PendingExcludesMinedIff | backend-v2/src/execution/txBroadcaster.ts:126-137 | no pending result names a transaction that succeeded, in every run, if and only if maxReplacements is negative |
| TxBroadcaster.PendingMayAlreadyBeMined | backend-v2/src/execution/txBroadcaster.ts:126-137 | with the executor's options there is a run that returns pending for a transaction that already succeeded |
| TxBroadcaster.RunKeepsTalk | backend-v2/src/execution/txBroadcaster.ts:113-178 | over every run: what was offered is what was signed, in order, each at as many bumps as were accepted before it; receipts are asked for the last accepted transaction only and the first one ends the call; every pause is 500 ms |
| TxBroadcaster.ResultsAreHeard | backend-v2/src/execution/txBroadcaster.ts:126-190 | mined and reverted end with that receipt; pending means all offers made and no poll got a receipt; a failed broadcast means every provider refused every one of the maxReplacements + 1 offers |
| TxBroadcaster.CallBounds | backend-v2/src/execution/txBroadcaster.ts:111-178 | at most maxReplacements + 1 signed transactions, at most ⌈delay/500⌉ polls for each accepted one, the k-th accepted one is the k-th rung |
| TxBroadcaster.CallsReturn | backend-v2/src/execution/txBroadcaster.ts:111-214 | every call takes a bounded number of steps and always has one to take until it has returned |
| TxBroadcaster.OwnStepsAreOthersForTheRest | backend-v2/src/execution/txBroadcaster.ts:55-71 | a step of one user's call adds nothing for any other user |
| TxBroadcaster.Broadcaster.BroadcastWithReplacement | backend-v2/src/execution/txBroadcaster.ts:92-223 | the replacement loop takes a legal run from the old chain to the new one; what it said to the nodes is that run's: every signed transaction offered to all providers, every accepted one asked about, and the result is what was heard; zero fees default to 1 and 50 gwei |
| TxBroadcaster.Broadcaster.AwaitInclusion | backend-v2/src/execution/txBroadcaster.ts:151-178 | the polling loop asks for the transaction's receipt and ends with it or after the replacement delay |
| TxBroadcaster.Broadcaster.SignAndBroadcast | backend-v2/src/execution/txBroadcaster.ts:55-71 | the transaction's hash comes back exactly if some RPC accepted it; a rejection leaves the fees alone |
| Safety.RequirementIsTheSum | backend-v2/src/execution/safety.ts:23-31 | the required output is the debt, 9 basis points of fee and 50 of buffer, each rounded down |
| Safety.RequirementBounds | backend-v2/src/execution/safety.ts:23-31 | the required output is 10059/10000 of the debt, short of it by less than two units, and at least the debt |
| Safety.NetIsSurplusOverRequirement | backend-v2/src/execution/safety.ts:43-52 | the net outcome is the surplus over the requirement, for debts of either sign |
| ExecutorClient.SafeCallsAreRepayable | backend-v2/src/execution/executorClient.ts:80-113 | parameters that pass the checks repay debt, flash-loan fee and buffer with a positive debt and collateral |
| ExecutorClient.ExecutorClient.AttemptLiquidation | backend-v2/src/execution/executorClient.ts:120-205 | the broadcaster is started exactly when the amounts are positive and repay and the lookups answer; field by field the call is the parameters', with the RPC's fees or the defaults; all of it is offered to every provider, and the result is passed on; each failed check is named |
| AttemptHistory.WindowIsTheLastTen | backend-v2/src/execution/attemptHistory.ts:33-45 | the window is the last ten of everything recorded for the user, so the guard reads the true last attempt |
| AttemptHistory.AttemptHistory.Record | backend-v2/src/execution/attemptHistory.ts:33-45 | pushes the record and drops the oldest beyond ten |
| AttemptHistory.AttemptHistory.HasPending | backend-v2/src/execution/attemptHistory.ts:104-107 | true exactly if the last attempt is pending |
| ExecutionPipeline.ChooseFresh | backend-v2/src/index.ts:470-545 | the first of the candidates whose quote leaves the largest surplus over the required output, none exactly if no quote leaves one, and the safety checks pass for it |
| ExecutionPipeline.QuoteCandidates | backend-v2/src/index.ts:477-523 | exactly the candidates whose quote leaves a surplus, each once, in candidate order |
| ExecutionPipeline.FreshCandidatesPassTheChecks | backend-v2/src/execution/executorClient.ts:80-113 | the checks never reject a freshly quoted candidate of the planner |
| ExecutionPipeline.PreparedPlansPassIff | backend-v2/src/index.ts:458-467 | on the prepared path the check alone decides: it passes exactly for positive amounts and a net outcome that is not negative |
| ExecutionPipeline.AtMostOneUnresolved | backend-v2/src/index.ts:362-366 | in every run an unresolved attempt of a user is the last one and recorded pending, so there is at most one |
| ExecutionPipeline.PendingBlocksForever | backend-v2/src/index.ts:362-366 | after a pending record nothing is recorded or broadcast for the user again |
| ExecutionPipeline.OutcomesAreFinal | backend-v2/src/index.ts:580-618 | every outcome that is not pending is final for everything the attempt signed: success never changes, except that a refused transaction may succeed if a later attempt gets it accepted |
| ExecutionPipeline.FreshNonceIsFree | backend-v2/src/index.ts:362-366 | behind the guard no earlier transaction of the user is still fighting for an unused nonce |
| ExecutionPipeline.FailedCallsAreFinal | backend-v2/src/execution/txBroadcaster.ts:138-143 | in every run nothing a failed call signed on an unused nonce can succeed by itself |
| ExecutionPipeline.AcceptedTransactionsAreRepayable | backend-v2/src/index.ts:563-575 | every transaction any node accepts for the user covers debt, fee and buffer |
| ExecutionPipeline.GuardHoldsIff | backend-v2/src/index.ts:362-366 | the one-unresolved-attempt guarantee holds in every run if and only if the signer never throws |
| ExecutionPipeline.ThrowingExecution | backend-v2/src/execution/txBroadcaster.ts:215-222 | an execution recorded failed whose attempt is unresolved |
| ExecutionPipeline.Pipeline.OnExecute | backend-v2/src/index.ts:355-629 | one execution is one step of the user's run; a pending user and a dry run send nothing; a cached plan, a planner error, no candidate, no surplus and the best quote lead to what `Outcome` says; every transaction signed is that very liquidation, offered to every provider; the plan is gone whenever the executor was called |
| ExecutionPipeline.Pipeline.MakeDecision | backend-v2/src/index.ts:368-545 | the decision between prepared plan, giving up, dry run and best quote, by its inputs; fresh choices pass the checks |
| ExecutionPipeline.Pipeline.Send | backend-v2/src/index.ts:565-618 | the chosen liquidation is sent as it is, its record has the status and transaction of the result, and the user's cached plan is gone afterwards |
| LiquidationPlanner.CollateralValueBounds | backend-v2/src/execution/liquidationPlanner.ts:616-677 | the computed collateral is worth at most debt value plus bonus, and short of it by less than price x (unit + 1 + bonus) + 1, over all decimals |
| LiquidationPlanner.RoundTripThroughTokenUnits | backend-v2/src/execution/liquidationPlanner.ts:643-672 | converting an amount to token units and back never gains and loses less than one unit |
| LiquidationPlanner.HaircutKeepsSignAndOrder | backend-v2/src/execution/liquidationPlanner.ts:379-382 | the truncating 2% haircut keeps the sign and the order of profits |
| LiquidationPlanner.AdmissiblePairsArePositive | backend-v2/src/execution/liquidationPlanner.ts:330-400 | a pair with a positive score covers half the debt rounded down, a positive amount, and seizes a positive amount the user has |
| LiquidationPlanner.ScoreIsTheOne | backend-v2/src/execution/liquidationPlanner.ts:330-400 | a pair is scored exactly if its data are there, the seizure fits the balance and is worth more than the debt, and the score is the only one following from half the debt, the two assets' own prices and decimals, the configured bonus and the 2% haircut |
| LiquidationPlanner.ScoredPairBounds | backend-v2/src/execution/liquidationPlanner.ts:330-400 | the two-sided rounding bound for every scored pair, with its own bonus and its collateral's own price |
| LiquidationPlanner.AllPairsAreScored | backend-v2/src/execution/liquidationPlanner.ts:326-402 | the double loop yields, in its order, the score of every pair that can be scored, once each |
| LiquidationPlanner.PairsInLoopOrder | backend-v2/src/execution/liquidationPlanner.ts:326-402 | the double loop's scores correspond one to one, in loop order, to the admissible debt-collateral index pairs |
| LiquidationPlanner.TopPairsAreTheBest | backend-v2/src/execution/liquidationPlanner.ts:404-411 | at most three scores of different pairs, best haircut profit first; any other pair that can be scored scores no higher than any of them, and then there are three |
| LiquidationPlanner.TopPairsByIndex | backend-v2/src/execution/liquidationPlanner.ts:404-411 | exactly min(3, n) of the n admissible index pairs, each once |
| LiquidationPlanner.TopPairsAreAdmissible | backend-v2/src/execution/liquidationPlanner.ts:366-400 | every returned pair is admissible, positive, within the balance and half the debt |
| LiquidationPlanner.CandidatesArePositive | backend-v2/src/execution/liquidationPlanner.ts:111-127 | every candidate plan has a positive debt, collateral and score |
| LiquidationPlanner.Planner.ScorePairs | backend-v2/src/execution/liquidationPlanner.ts:326-402 | the nested scoring loops collect exactly the admissible pairs, in loop order |
| LiquidationPlanner.Planner.SelectTopPairs | backend-v2/src/execution/liquidationPlanner.ts:236-411 | the best pairs on the prefetched data; cached reserve configurations stay and every fetched one is added |
| LiquidationPlanner.Planner.ScorePairsForBest | backend-v2/src/execution/liquidationPlanner.ts:512-588 | the twin's own scoring loops collect the same pairs in the same order |
| LiquidationPlanner.Planner.SelectBestPair | backend-v2/src/execution/liquidationPlanner.ts:422-610 | on the same data, the first of the top pairs: no pair that can be scored scores higher, and none is returned exactly if none can be |
| LiquidationPlanner.Planner.BuildCandidatePlans | backend-v2/src/execution/liquidationPlanner.ts:72-146 | the candidates are, field by field, the best pairs of the user's positions, at most three, all positive |
| LiquidationPlanner.Planner.BuildPlan | backend-v2/src/execution/liquidationPlanner.ts:152-230 | the legacy plan is the first candidate of the same data |
| Ordered.SortDescSorts | backend-v2/src/execution/liquidationPlanner.ts:409-410 | the score sort returns a descending permutation |
| Ordered.SortDescIsStable | backend-v2/src/index.ts:538-542 | entries with equal keys keep their order |
| PlanCache.RunsAreAccountedFor | backend-v2/src/execution/PlanCache.ts:49-112 | over every run: one plan per user, at most max(1, maxUsers), each the latest; hits + misses = gets; every cached plan is present or accounted for |
| PlanCache.GetRefinesLatest | backend-v2/src/execution/PlanCache.ts:64-84 | get answers exactly the last prepared plan, if and only if there is one, it is within the TTL and was not dropped |
| PlanCache.EvictionIsJustified | backend-v2/src/execution/PlanCache.ts:53-55 | a plan is lost to capacity only from a full cache in which all plans are at least as new |
| PlanCache.PreparedIsServed | backend-v2/src/execution/PlanCache.ts:49-84 | a plan just prepared is the one get answers with, exactly until it is older than the TTL |
| PlanCache.PlanCache.Prepare | backend-v2/src/execution/PlanCache.ts:49-59 | stores the plan, evicting first when full and the user is new |
| PlanCache.PlanCache.Get | backend-v2/src/execution/PlanCache.ts:64-84 | hit, miss or expiry, with the statistics of each |
| PlanCache.PlanCache.EvictOldest | backend-v2/src/execution/PlanCache.ts:97-112 | the scan removes the first of the oldest plans |
| PlanCache.PlanCache.Invalidate | backend-v2/src/execution/PlanCache.ts:89-92 | removes the user's plan |
| UserIndex.IndexIsThePlainMap | backend-v2/src/predictive/UserIndex.ts:34-102 | after any operations the users of a token are those whose latest list has it, each once, and no empty set is kept |
| UserIndex.RunsAreConsistent | backend-v2/src/predictive/UserIndex.ts:17-24 | the two maps stay exact inverses over every run |
| UserIndex.ReindexMovesToTheEnd | backend-v2/src/predictive/UserIndex.ts:34-66 | re-indexing takes a user out of a token's set and appends it at the end, changing no one else |
| UserIndex.UserIndex.SetUserTokens | backend-v2/src/predictive/UserIndex.ts:34-66 | unlinks the previous tokens and links the new ones |
| UserIndex.UserIndex.RemoveUser | backend-v2/src/predictive/UserIndex.ts:82-102 | unlinks the user from every token and forgets the list |
| TokenExtractor.ExtractUserTokens | backend-v2/src/predictive/tokenExtractor.ts:19-50 | a token is extracted, once, exactly if the user is exposed to it or it anchors a held LST; empty exactly without exposure |
| TokenExtractor.UpdateUserIndexForUser | backend-v2/src/risk/ActiveRiskSet.ts:210-226 | after a refresh the user is listed under exactly the tokens exposed to; others and failed fetches change nothing |
| RescoreTicks.StampsAreRateLimited | backend-v2/src/predictive/PredictiveLoop.ts:236-248 | under every interleaving of ticks the stamps of a user are at least the rate limit apart and increasing |
| RescoreTicks.OneTickRescoresOnce | backend-v2/src/predictive/PredictiveLoop.ts:239-253 | one tick rescores each user at most once although re-indexed users come round again |
| RescoreTicks.TicksTerminate | backend-v2/src/predictive/PredictiveLoop.ts:239-260 | a tick visits at most twice the users present at its start or added by others since |
| RescoreTicks.FinishedTicksLeaveNobodyStale | backend-v2/src/predictive/PredictiveLoop.ts:239-248 | when a tick is through, everyone in the set was rescored within the limit before its time, or later |
| RescoreTicks.RunKeepsInvariant | backend-v2/src/predictive/PredictiveLoop.ts:236-260 | the invariant behind the four above, for every legal run |
| RescoreTicks.MoveIsReindexing | backend-v2/src/predictive/UserIndex.ts:34-77 | what re-indexing does to the slots a tick iterates is what it does to the index: the same users in the same order |
| PredictiveLoop.PredictiveLoop.HandlePriceUpdate | backend-v2/src/predictive/PredictiveLoop.ts:165-264 | counts the tick, keeps the price, triggers exactly when the relative move reaches the threshold, runs a legal tick to the end of the live set, writes the answers of each rescored user and counts exactly those that did not throw |
| PredictiveLoop.PredictiveLoop.RescoreAll | backend-v2/src/predictive/PredictiveLoop.ts:236-262 | the iteration terminates for any finite number of additions by others, takes a legal run, and rescores its users in order |
| PredictiveLoop.PredictiveLoop.RescoreUser | backend-v2/src/predictive/PredictiveLoop.ts:269-301 | the check's values are written for that user alone, and a plan of the first candidate, its quote and the present is cached exactly for a health factor between zero and the threshold |
| PredictiveLoop.PredictiveLoop.PreparePlan | backend-v2/src/predictive/PredictiveLoop.ts:306-363 | asks for the first candidate's whole collateral in its debt asset and caches its plan, field by field, exactly if there is a quote |
| PredictiveLoop.PreparedPlansRoundTrip | backend-v2/src/predictive/PredictiveLoop.ts:331-348 | the closure reads back the very candidate; the check passes for it exactly if the quote repays |
| PredictiveLoop.OthersKeepMeasure | backend-v2/src/predictive/PredictiveLoop.ts:239-260 | what others do never moves a tick's cursor and adds to its remaining work only by their additions |
| DirtyQueue.FirstMarkedFirstTaken | backend-v2/src/realtime/dirtyQueue.ts:20-45 | accepted marks are, in order, what was taken followed by what is queued, without duplicates; the counters agree |
| DirtyQueue.LeavesWithItsBatch | backend-v2/src/realtime/dirtyQueue.ts:32-45 | a user at position p leaves with exactly the (⌊p/size⌋ + 1)-th batch, at place p mod size |
| DirtyQueue.DirtyQueue.MarkDirty | backend-v2/src/realtime/dirtyQueue.ts:20-26 | appends and counts a user that is not queued |
| DirtyQueue.DirtyQueue.TakeBatch | backend-v2/src/realtime/dirtyQueue.ts:32-45 | takes the first min(max, size) users, none for a negative maximum |
| ActiveRiskSet.RunsKeepMinimumDebt | backend-v2/src/risk/ActiveRiskSet.ts:54-132 | in every run a stored user checked since it was added has at least the rounded minimum debt, any other no debt and an infinite health factor |
| ActiveRiskSet.ConfiguredMinimumHoldsIff | backend-v2/src/risk/ActiveRiskSet.ts:46-48 | no checked user is below MIN_DEBT_USD in any run of the checker's results if and only if it is a whole number |
| ActiveRiskSet.ZeroDebtMeansUncheckedIff | backend-v2/src/risk/ActiveRiskSet.ts:94-105 | a stored user without debt was not checked since it was added, in every run of the checker's results, if and only if MIN_DEBT_USD is at least 1 |
| ActiveRiskSet.ActiveRiskSet.Add | backend-v2/src/risk/ActiveRiskSet.ts:54-78 | stores the user unless the debt is dust |
| ActiveRiskSet.ActiveRiskSet.AddBulk | backend-v2/src/risk/ActiveRiskSet.ts:83-88 | adds every address as unchecked |
| ActiveRiskSet.ActiveRiskSet.UpdateHF | backend-v2/src/risk/ActiveRiskSet.ts:94-132 | removes the user below the minimum debt, else stores the checked values, changes no one else, and asks for an index refresh exactly for a new user or a due one |
| ActiveRiskSet.ActiveRiskSet.PruneHealthyUsers | backend-v2/src/risk/ActiveRiskSet.ts:155-177 | keeps exactly the users with the minimum debt and a health factor up to 1.10, and returns the number of the others |
| ActiveRiskSet.ActiveRiskSet.GetBelowThreshold | backend-v2/src/risk/ActiveRiskSet.ts:144-150 | the stored users below the start threshold with the minimum debt |
| VerifierLoop.DueUsersAreHeld | backend-v2/src/risk/verifierLoop.ts:87-95 | a result due for execution is held by the set with exactly the checked values once written |
| VerifierLoop.VerifierLoop.Tick | backend-v2/src/risk/verifierLoop.ts:79-108 | takes one batch, writes every result to the risk set in order, and enters onExecute for exactly the due results, each right after its own write, with the checked values, which the set then holds |
| HealthFactorChecker.CheckBatch | backend-v2/src/risk/HealthFactorChecker.ts:45-56 | exactly the users of the batch whose check succeeded have a result, with that check, in batch order |
| HealthFactorChecker.ChecksReportTheAccount | backend-v2/src/risk/HealthFactorChecker.ts:76-157 | when a user is reported, with the raw health factor over 1e18 and the base debt at its decimals, times the ETH price unless the base is USD |
| HealthFactorChecker.InfiniteExactlyWithoutDebt | backend-v2/src/risk/HealthFactorChecker.ts:94-148 | an infinite health factor means no debt and is reported with zero debt; zero debt means infinite unless ETH is below a dollar |
| HealthFactorChecker.WholeDollarsAreEmitted | backend-v2/src/risk/HealthFactorChecker.ts:94-148 | every whole number of dollars is a debt the checker can report |
| SubgraphSeeder.SubgraphSeeder.FetchUsersPaginated | backend-v2/src/subgraph/SubgraphSeeder.ts:134-178 | fetches exactly the first min of listing and whole pages up to the cap, or stops at a failed page |
| SubgraphSeeder.SubgraphSeeder.Seed | backend-v2/src/subgraph/SubgraphSeeder.ts:49-108 | unions the three fetched prefixes in order and caps them; when no page request fails, the prefixes are exactly the first min(listing, pageSize·⌈max/pageSize⌉) users |
| SubgraphSeeder.SeedingKeepsDebtorsFirst | backend-v2/src/subgraph/SubgraphSeeder.ts:80-103 | no duplicates, within the cap, the whole union if it fits, and the cap drops collateral-only users before debtors |

## Left out

- The single-RPC branch of the executor (executorClient.ts:183-199): its wait may throw after sending, so no finality is claimed for it.
- Overlapping executions of one user: timer ticks have no in-flight lock; the run-level results are for executions of a user that follow each other.
- Restarts: the attempt history is in memory, so a run starts with a user no transaction was ever accepted for.
- An RPC that reports an error but keeps the transaction: an error counts as not accepted.
- RPC, subgraph, 1inch, Telegram and WebSocket calls: arbitrary inputs or interference, as described above; environment parsing and logging are not modelled.
- Address lowercasing and symbol lookup: keys are canonical; an unmapped symbol is an absent token.
- JS Number rounding: scores are an arbitrary monotone, sign-preserving image of the BigInt profit, health factors and price moves are reals or infinite.
- LiquidationPlanner.Planner.PrefetchConfigs: the concurrent fetches of one plan are one atomic cache update; other plans' fetches in between are not modelled.
- PredictiveLoop.PredictiveLoop.HandlePriceUpdate: sets of the index are named by identity and changed by re-indexing events; that the index drops an emptied set object only takes additions away. The counters show what this call adds to them.
- ExecutionPipeline.Pipeline.OnExecute: quotes and RPC lookups are functions of the request, fixed for the execution; errors carry no text.
- VerifierLoop.VerifierLoop.Tick: the callback itself is an entry in a log followed by interference; a failed multicall as a whole is a batch without results.
- PredictiveLoop.PredictiveLoop.RescoreUser: the awaits inside one rescore all come before its two writes, so nobody acts between the risk set's and the plan cache's.
- ActiveRiskSet.ActiveRiskSet.GetBelowThreshold: returns a set; the order of the source's array is not captured.
- AttemptHistory.getStats, UserIndex.getStats and the other loggers' counters: sums that would only add easy members.
- priceMath.ts, ChainlinkListener.ts, metrics.ts, blockHeartbeat.ts, liquidationAudit.ts: scaling copies and logging.
