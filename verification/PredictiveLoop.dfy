/** Price updates, rescoring and plan preparation (PredictiveLoop.ts). */
module PredictiveLoop {
  import opened Ordered
  import opened RescoreTicks
  import C = PlanCache
  import P = LiquidationPlanner
  import X = ExecutionPipeline
  import E = ExecutorClient
  import R = ActiveRiskSet
  import opened HealthFactorChecker
  import Safety

  datatype Stats = Stats(
    pythTicksSeen: nat,
    pythTriggers: nat,
    affectedUsersTotal: nat,
    rescoredUsers: nat,
    plansPrepared: nat)

  /** Whether a move triggers; a zero last price always does. */
  predicate Triggers(last: real, price: real, threshold: real) {
    var diff := if price >= last then price - last else last - price;
    var scale := if last >= 0.0 then last else -last;
    last == 0.0 || diff >= threshold * scale
  }

  /** The relative move reaches the threshold, up or down. */
  ghost predicate MovedBy(last: real, price: real, threshold: real) {
    last == 0.0 || (price - last) / last >= threshold || (last - price) / last >= threshold
  }

  lemma TriggersIsMovedBy(last: real, price: real, threshold: real)
    ensures Triggers(last, price, threshold) <==> MovedBy(last, price, threshold)
  {
    if last > 0.0 {
      DivAtLeast(price - last, last, threshold);
      DivAtLeast(last - price, last, threshold);
    } else if last < 0.0 {
      DivAtLeast(last - price, -last, threshold);
      DivAtLeast(price - last, -last, threshold);
      assert (price - last) / last == (last - price) / -last;
      assert (last - price) / last == (price - last) / -last;
    }
  }

  lemma DivAtLeast(x: real, y: real, t: real)
    requires y > 0.0
    ensures x / y >= t <==> x >= t * y
  {
    assert x / y * y == x;
    if x / y < t { assert x / y * y < t * y; }
    if x / y >= t { assert x / y * y >= t * y; }
  }

  /** Steps left for a tick, when others may still add `budget` users to its set. */
  ghost function Measure(w: World, id: nat, budget: nat): nat
    requires id in w.ticks && w.ticks[id].set_ in w.sets
  {
    var t := w.ticks[id];
    Ahead(w.sets[t.set_], t.cursor, t.rescored) + t.credits + 2 * budget
  }

  predicate AddsFromOutside(w: World, e: Event, id: nat)
    requires id in w.ticks && Legal(w, e)
  {
    || (e.Reindex? && e.stays && e.set_ == w.ticks[id].set_)
    || (e.OwnReindex? && e.stays && e.id != id && w.ticks[e.id].set_ == w.ticks[id].set_)
  }

  /** A tick as another tick's or the world's step leaves it: only the counts may change. */
  ghost predicate SamePosition(t: Tick, u: Tick) {
    u.set_ == t.set_ && u.now == t.now && u.cursor == t.cursor && u.rescored == t.rescored
  }

  lemma ReindexKeepsMeasure(limit: nat, w: World, s: nat, user: string, stays: bool, id: nat)
    requires limit > 0 && Invariant(limit, w) && id in w.ticks && Legal(w, Reindex(s, user, stays))
    ensures var v := Step(limit, w, Reindex(s, user, stays));
      && id in v.ticks && SamePosition(w.ticks[id], v.ticks[id]) && v.ticks[id].set_ in v.sets
      && Measure(v, id, 0) <= Measure(w, id, 0) + if stays && s == w.ticks[id].set_ then 2 else 0
  {
    var t := w.ticks[id];
    assert TickInvariant(limit, t, w.sets[t.set_], w.lastRescore);
    AheadAfterMove(w.sets[t.set_], t.cursor, t.rescored, user, stays);
  }

  lemma OwnReindexKeepsMeasure(limit: nat, w: World, own: nat, user: string, stays: bool, id: nat)
    requires limit > 0 && Invariant(limit, w) && id in w.ticks && Legal(w, OwnReindex(own, user, stays))
    ensures var v := Step(limit, w, OwnReindex(own, user, stays));
      && id in v.ticks && SamePosition(w.ticks[id], v.ticks[id]) && v.ticks[id].set_ in v.sets
      && Measure(v, id, 0)
         <= Measure(w, id, 0) + if stays && own != id && w.ticks[own].set_ == w.ticks[id].set_ then 2 else 0
  {
    var t := w.ticks[id];
    assert TickInvariant(limit, t, w.sets[t.set_], w.lastRescore);
    AheadAfterMove(w.sets[t.set_], t.cursor, t.rescored, user, stays);
  }

  /** Whatever others do, a tick's position stays and its remaining work does not grow beyond what they add. */
  lemma OthersKeepMeasure(limit: nat, w: World, e: Event, id: nat)
    requires limit > 0 && Invariant(limit, w) && id in w.ticks && Legal(w, e) && e != Visit(id)
    ensures var v := Step(limit, w, e);
      && id in v.ticks && SamePosition(w.ticks[id], v.ticks[id]) && v.ticks[id].set_ in v.sets
      && Measure(v, id, 0) <= Measure(w, id, 0) + if AddsFromOutside(w, e, id) then 2 else 0
  {
    match e
    case StartTick(_, _, _) =>
    case Visit(_) =>
    case OwnReindex(own, user, stays) => OwnReindexKeepsMeasure(limit, w, own, user, stays, id);
    case Reindex(s, user, stays) => ReindexKeepsMeasure(limit, w, s, user, stays, id);
    case NewSet(_) =>
  }

  lemma VisitLowersMeasure(limit: nat, w: World, id: nat)
    requires limit > 0 && Invariant(limit, w) && Legal(w, Visit(id))
    ensures var v := VisitSlot(limit, w, id); var t := w.ticks[id];
      if w.sets[t.set_][t.cursor] == None then Measure(v, id, 0) == Measure(w, id, 0)
      else Measure(v, id, 0) < Measure(w, id, 0)
  {
    var t := w.ticks[id];
    var slots := w.sets[t.set_];
    assert TickInvariant(limit, t, slots, w.lastRescore);
    AheadOfNext(slots, t.cursor, t.rescored);
    match slots[t.cursor]
    case None =>
    case Some(user) =>
      if MayRescore(w.lastRescore, user, t.now, limit) {
        assert user !in t.rescored;
        AheadShrinks(slots, t.cursor + 1, t.rescored, user);
      }
  }

  // ----- Preparing a plan -----

  /** Whether a fresh health factor calls for a plan. */
  predicate ShouldPrepare(hf: HealthFactor, prepareHfThreshold: real) {
    Below(hf, prepareHfThreshold) && hf.value > 0.0
  }

  function PlanFor(user: string, c: P.CandidatePlan, q: X.Quote, now: int): C.PreparedPlan {
    C.PreparedPlan(user, c.debtAsset, c.collateralAsset, c.debtToCover, c.expectedCollateralOut, q.minOut, q.data,
                   c.oracleScore, now, c.debtAssetDecimals, c.collateralAssetDecimals, c.liquidationBonusBps)
  }

  /** The plan of a candidate and its quote, field by field. */
  ghost predicate IsPlanFor(plan: C.PreparedPlan, user: string, c: P.CandidatePlan, q: X.Quote, at: int) {
    && plan.user == user && plan.createdAt == at
    && plan.debtAsset == c.debtAsset && plan.collateralAsset == c.collateralAsset
    && plan.debtToCover == c.debtToCover && plan.expectedCollateralOut == c.expectedCollateralOut
    && plan.minOut == q.minOut && plan.oneInchCalldata == q.data && plan.score == c.oracleScore
    && plan.debtAssetDecimals == c.debtAssetDecimals && plan.collateralAssetDecimals == c.collateralAssetDecimals
    && plan.liquidationBonusBps == c.liquidationBonusBps
  }

  /**
   The closure reads back from the cache exactly the candidate the plan was made of, so for a planner's
   candidate the check passes exactly when the quote repays: preparing does not test that.
   */
  lemma PreparedPlansRoundTrip(user: string, c: P.CandidatePlan, q: X.Quote, now: int, payout: string)
    requires P.Positive(c)
    ensures X.PreparedCandidate(PlanFor(user, c, q, now)).candidate == c
    ensures X.PreparedCandidate(PlanFor(user, c, q, now)).swapData == q.data
    ensures IsPlanFor(PlanFor(user, c, q, now), user, c, q, now)
    ensures E.PerformSafetyChecks(X.ParamsOf(user, X.PreparedCandidate(PlanFor(user, c, q, now)), payout)) == E.Safe
       <==> Safety.ComputeNetDebtToken(q.minOut, c.debtToCover) >= 0
  {
    X.PreparedPlansPassIff(user, PlanFor(user, c, q, now), payout);
  }

  // ----- What a rescore writes -----

  /**
   What the outside answers when a user is rescored: the check throws, or gives a result or none; then the
   planner's candidates (none if it is missing or throws) and the quotes.
   */
  datatype Answers =
    | Throws
    | Answers(check: Option<Check>, candidates: seq<P.CandidatePlan>, quote: X.QuoteRequest -> Option<X.Quote>)

  /** The request for the first candidate: its collateral into its debt asset, from a placeholder, at 1% slippage. */
  function RequestFor(c: P.CandidatePlan): X.QuoteRequest {
    X.QuoteRequest(c.collateralAsset, c.debtAsset, c.expectedCollateralOut, c.collateralAsset, X.SWAP_SLIPPAGE_BPS)
  }

  /** A rescore that did not throw, with the risk set and the plan cache before and after its writes. */
  datatype Rescored = Rescored(
    user: string,
    at: nat,
    before: R.Candidates,
    after: R.Candidates,
    plansBefore: C.State,
    plansAfter: C.State)

  /** The quote a plan is made with: health factor between zero and the threshold, a candidate and its quote. */
  ghost function QuoteToPrepare(prepareHfThreshold: real, a: Answers): Option<X.Quote> {
    if a.Answers? && a.check.Some? && a.check.value.healthFactor.Num?
      && 0.0 < a.check.value.healthFactor.value < prepareHfThreshold && a.candidates != []
    then a.quote(X.QuoteRequest(a.candidates[0].collateralAsset, a.candidates[0].debtAsset,
                                a.candidates[0].expectedCollateralOut, a.candidates[0].collateralAsset, 100))
    else None
  }

  /**
   The fresh check is written to the risk set. If a plan is called for, the one of the first candidate, its
   quote and the present is cached, and served until the TTL; else the cache stays.
   */
  ghost predicate WritesOf(cfg: R.Config, planCfg: C.Config, prepareHfThreshold: real, a: Answers, r: Rescored) {
    && a.Answers?
    && (a.check == None ==> r.after == r.before)
    && (a.check.Some? ==>
          R.WrittenBy(cfg, r.before, r.after, r.user, a.check.value.healthFactor, a.check.value.debtUsd1e18,
                      a.check.value.totalCollateralBase, r.at))
    && match QuoteToPrepare(prepareHfThreshold, a)
       case None => r.plansAfter == r.plansBefore
       case Some(q) => exists plan ::
         && IsPlanFor(plan, r.user, a.candidates[0], q, r.at)
         && r.plansAfter == C.Prepared(planCfg, r.plansBefore, plan)
  }

  /** The users whose rescore does not throw. */
  function Succeeding(users: seq<string>, answers: string -> Answers): seq<string> {
    if users == [] then []
    else
      Succeeding(users[..|users| - 1], answers)
      + if answers(users[|users| - 1]).Throws? then [] else [users[|users| - 1]]
  }

  lemma SucceedingOfAppended(users: seq<string>, user: string, answers: string -> Answers)
    ensures Succeeding(users + [user], answers)
         == Succeeding(users, answers) + if answers(user).Throws? then [] else [user]
  {
    assert (users + [user])[..|users|] == users;
  }

  class PredictiveLoop {
    const rescoreRateLimitMs: nat
    const prepareHfThreshold: real
    const riskSet: R.ActiveRiskSet
    const planCache: C.PlanCache
    var lastPrices: map<string, real>
    var stats: Stats
    /** The sets of the user index, the rate-limit stamps and the ticks in flight. */
    var shared: World
    /** The rescores that did not throw, with what they wrote. */
    ghost var rescores: seq<Rescored>

    constructor (riskSet: R.ActiveRiskSet, planCache: C.PlanCache, rescoreRateLimitMs: nat, prepareHfThreshold: real)
      requires riskSet.cfg.minDebtUsd >= 0.0 && R.Admitted(riskSet.cfg, riskSet.candidates)
      requires C.OnePerUser(planCache.cache)
      ensures this.riskSet == riskSet && this.planCache == planCache
      ensures this.rescoreRateLimitMs == (if rescoreRateLimitMs == 0 then 500 else rescoreRateLimitMs)
      ensures Valid() && shared == FRESH && lastPrices == map[] && rescores == []
    {
      this.riskSet, this.planCache := riskSet, planCache;
      this.rescoreRateLimitMs := if rescoreRateLimitMs == 0 then 500 else rescoreRateLimitMs;
      this.prepareHfThreshold := prepareHfThreshold;
      lastPrices, stats, shared, rescores := map[], Stats(0, 0, 0, 0, 0), FRESH, [];
    }

    ghost predicate Valid()
      reads this`shared, riskSet, planCache
    {
      && rescoreRateLimitMs > 0 && Invariant(rescoreRateLimitMs, shared)
      && riskSet.cfg.minDebtUsd >= 0.0 && R.Admitted(riskSet.cfg, riskSet.candidates)
      && C.OnePerUser(planCache.cache)
    }

    /** Every user in the set was last rescored less than the rate limit before `now`, or after it. */
    ghost predicate NobodyStale(users: nat, now: nat)
      reads this`shared
    {
      && users in shared.sets
      && forall i :: 0 <= i < |shared.sets[users]| && shared.sets[users][i].Some? ==>
           FreshFor(rescoreRateLimitMs, now, shared.sets[users][i].value, shared.lastRescore)
    }

    ghost predicate Reached(before: World, es: Trace)
      reads this`shared
    {
      LegalRun(rescoreRateLimitMs, before, es) && After(rescoreRateLimitMs, before, es) == shared
    }

    /** `done` are the rescores of the users whose check did not throw, in order, each with its own writes. */
    ghost predicate RescoresOf(users: seq<string>, answers: string -> Answers, done: seq<Rescored>)
    {
      var succeeding := Succeeding(users, answers);
      && |done| == |succeeding|
      && forall k :: 0 <= k < |done| ==>
           && done[k].user == succeeding[k]
           && WritesOf(riskSet.cfg, planCache.cfg, prepareHfThreshold, answers(succeeding[k]), done[k])
    }

    /** One awaited rescore: anything but this tick's own iteration may happen, with finitely many additions. */
    method Await(id: nat, budget: nat, ghost before: World, ghost es: Trace)
      returns (left: nat, ghost es': Trace)
      requires Valid() && id in shared.ticks && Reached(before, es)
      modifies this`shared, riskSet, planCache
      ensures Valid() && id in shared.ticks && Reached(before, es')
      ensures SamePosition(old(shared).ticks[id], shared.ticks[id])
      ensures Measure(shared, id, left) <= old(Measure(shared, id, budget))
    {
      left, es' := budget, es;
      var n: int := *;
      while n > 0
        invariant Valid() && id in shared.ticks && Reached(before, es')
        invariant SamePosition(old(shared).ticks[id], shared.ticks[id])
        invariant Measure(shared, id, left) <= old(Measure(shared, id, budget))
      {
        var e: Event := *;
        if Legal(shared, e) && e != Visit(id) && (AddsFromOutside(shared, e, id) ==> left > 0) {
          OthersKeepMeasure(rescoreRateLimitMs, shared, e, id);
          StepKeepsInvariant(rescoreRateLimitMs, shared, e);
          left := if AddsFromOutside(shared, e, id) then left - 1 else left;
          es' := Then(es', e);
          shared := Step(rescoreRateLimitMs, shared, e);
        }
        n := n - 1;
      }
      ActElsewhere();
    }

    /** Meanwhile checks, removals, prunings and plans of anyone reach the risk set and the plan cache. */
    method ActElsewhere()
      requires Valid()
      modifies riskSet, planCache
      ensures Valid()
    {
      var n: int := *;
      while n > 0
        invariant Valid()
      {
        var op: R.Op := *;
        R.ApplyKeepsAdmitted(riskSet.cfg, riskSet.indexed, riskSet.candidates, op);
        match op {
          case OpAddBulk(addresses, at) => riskSet.AddBulk(addresses, at);
          case OpUpdate(address, hf, debt, collateral, at) =>
            var _ := riskSet.UpdateHF(address, hf, debt, collateral, at);
          case OpRemove(address) => riskSet.Remove(address);
          case OpPrune => var _ := riskSet.PruneHealthyUsers();
        }
        ActOnPlans();
        n := n - 1;
      }
    }

    method ActOnPlans()
      requires C.OnePerUser(planCache.cache)
      modifies planCache
      ensures C.OnePerUser(planCache.cache)
    {
      var plan: C.PreparedPlan, user: string, now: int := *, *, *;
      C.PrepareKeepsOnePerUser(planCache.cfg, planCache.Value(), plan);
      planCache.Prepare(plan);
      C.GetKeepsOnePerUser(planCache.cfg, planCache.Value(), user, now);
      var _ := planCache.Get(user, now);
      C.InvalidateDropsTheUser(planCache.Value(), user);
      planCache.Invalidate(user);
    }

    /**
     A price update. It triggers at most one tick, and a triggered tick runs to the end of its set: the run
     is a legal interleaving from the old shared state, so its stamps are rate-limited and its users
     rescored once, and in the end nobody in the set is stale. Each user it rescored had the answers
     written, unless the check threw, and exactly the others are counted. `token` is the symbol's address
     (none if unmapped), `users` the live set of the token (none if it has no users), `id` a name for the
     tick, `answers` what the outside answers for a user, who comes up at most once.
     */
    method HandlePriceUpdate(token: Option<string>, price: real, threshold: real, users: Option<nat>, id: nat, now: nat,
                             answers: string -> Answers)
      returns (ghost es: Trace)
      requires Valid() && now > 0 && id !in shared.ticks && (users.Some? ==> users.value in shared.sets)
      modifies this, riskSet, planCache
      ensures Valid() && Reached(old(shared), es)
      ensures stats.pythTicksSeen == old(stats).pythTicksSeen + 1
      ensures lastPrices == if token.Some? then old(lastPrices)[token.value := price] else old(lastPrices)
      ensures old(rescores) <= rescores
      ensures
        var known := token.Some? && token.value in old(lastPrices);
        var triggered := known && MovedBy(old(lastPrices)[token.value], price, threshold);
        && stats.pythTriggers == old(stats).pythTriggers + (if triggered then 1 else 0)
        && if triggered && users.Some? && Present(old(shared).sets[users.value]) > 0 then
             && id in shared.ticks && shared.ticks[id].set_ == users.value
             && shared.ticks[id].cursor == |shared.sets[users.value]|
             && stats.affectedUsersTotal == old(stats).affectedUsersTotal + Present(old(shared).sets[users.value])
             && NobodyStale(users.value, now)
             && RescoresOf(shared.ticks[id].rescored, answers, rescores[|old(rescores)|..])
             && stats.rescoredUsers == old(stats).rescoredUsers + |Succeeding(shared.ticks[id].rescored, answers)|
           else shared == old(shared) && rescores == old(rescores) && stats.rescoredUsers == old(stats).rescoredUsers
    {
      es := Empty;
      stats := stats.(pythTicksSeen := stats.pythTicksSeen + 1);
      if token == None {
        return;
      }
      var known := token.value in lastPrices;
      var lastPrice := if known then lastPrices[token.value] else 0.0;
      lastPrices := lastPrices[token.value := price];
      TriggersIsMovedBy(lastPrice, price, threshold);
      if !known || !Triggers(lastPrice, price, threshold) {
        return;
      }
      stats := stats.(pythTriggers := stats.pythTriggers + 1);
      if users == None || Present(shared.sets[users.value]) == 0 {
        return;
      }
      stats := stats.(affectedUsersTotal := stats.affectedUsersTotal + Present(shared.sets[users.value]));
      var rescoredCount;
      rescoredCount, es := RescoreAll(users.value, id, now, answers);
      stats := stats.(rescoredUsers := stats.rescoredUsers + rescoredCount);
    }

    method RescoreAll(users: nat, id: nat, now: nat, answers: string -> Answers)
      returns (rescoredCount: nat, ghost es: Trace)
      requires Valid() && now > 0 && id !in shared.ticks && users in shared.sets
      modifies this`shared, this`rescores, this`stats, riskSet, planCache
      ensures Valid() && Reached(old(shared), es)
      ensures id in shared.ticks && shared.ticks[id].set_ == users && shared.ticks[id].cursor == |shared.sets[users]|
      ensures old(rescores) <= rescores
      ensures RescoresOf(shared.ticks[id].rescored, answers, rescores[|old(rescores)|..])
      ensures rescoredCount == |Succeeding(shared.ticks[id].rescored, answers)|
      ensures stats == old(stats).(plansPrepared := stats.plansPrepared)
      ensures NobodyStale(users, now)
    {
      ghost var before := shared;
      es := Empty;
      assert LegalRun(rescoreRateLimitMs, before, es);
      StepKeepsInvariant(rescoreRateLimitMs, shared, StartTick(id, users, now));
      es := Then(es, StartTick(id, users, now));
      shared := Step(rescoreRateLimitMs, shared, StartTick(id, users, now));
      rescoredCount := 0;
      var additions: int := *;
      var budget: nat := if additions > 0 then additions else 0;
      while shared.ticks[id].cursor < |shared.sets[users]|
        invariant Valid() && Reached(before, es)
        invariant id in shared.ticks && shared.ticks[id].set_ == users && shared.ticks[id].now == now
        invariant shared.ticks[id].cursor <= |shared.sets[users]|
        invariant old(rescores) <= rescores
        invariant RescoresOf(shared.ticks[id].rescored, answers, rescores[|old(rescores)|..])
        invariant rescoredCount == |Succeeding(shared.ticks[id].rescored, answers)|
        invariant stats == old(stats).(plansPrepared := stats.plansPrepared)
        decreases Measure(shared, id, budget), |shared.sets[users]| - shared.ticks[id].cursor
      {
        ghost var start := |old(rescores)|;
        var succeeded;
        succeeded, budget, es := VisitNext(id, budget, answers, start, before, es);
        rescoredCount := if succeeded then rescoredCount + 1 else rescoredCount;
      }
      assert TickInvariant(rescoreRateLimitMs, shared.ticks[id], shared.sets[users], shared.lastRescore);
    }

    /** One turn of the loop: the rate-limit check, the stamp and, if it was set, the awaited rescore. */
    method VisitNext(id: nat, budget: nat, answers: string -> Answers, ghost start: nat, ghost before: World,
                     ghost es: Trace)
      returns (succeeded: bool, left: nat, ghost es': Trace)
      requires Valid() && Reached(before, es) && Legal(shared, Visit(id)) && start <= |rescores|
      requires RescoresOf(shared.ticks[id].rescored, answers, rescores[start..])
      modifies this`shared, this`rescores, this`stats, riskSet, planCache
      ensures Valid() && Reached(before, es')
      ensures id in shared.ticks && shared.ticks[id].set_ == old(shared).ticks[id].set_
      ensures shared.ticks[id].now == old(shared).ticks[id].now
      ensures shared.ticks[id].cursor == old(shared).ticks[id].cursor + 1
      ensures old(rescores) <= rescores
      ensures RescoresOf(shared.ticks[id].rescored, answers, rescores[start..])
      ensures |Succeeding(shared.ticks[id].rescored, answers)|
           == |Succeeding(old(shared).ticks[id].rescored, answers)| + if succeeded then 1 else 0
      ensures stats == old(stats).(plansPrepared := stats.plansPrepared)
      ensures
        || Measure(shared, id, left) < old(Measure(shared, id, budget))
        || (Measure(shared, id, left) == old(Measure(shared, id, budget)) && shared.sets == old(shared).sets)
    {
      succeeded, left := false, budget;
      var users := shared.ticks[id].rescored;
      var stamped;
      stamped, es' := Advance(id, before, es);
      if stamped.Some? {
        succeeded, left, es' := RescoreStamped(id, stamped.value, budget, answers, start, users, before, es');
      }
    }

    /** The iterator's next slot: its user, if there is one and the rate limit lets it pass, is stamped. */
    method Advance(id: nat, ghost before: World, ghost es: Trace) returns (stamped: Option<string>, ghost es': Trace)
      requires Valid() && Reached(before, es) && Legal(shared, Visit(id))
      modifies this`shared
      ensures Valid() && Reached(before, es')
      ensures id in shared.ticks && shared.sets == old(shared).sets
      ensures var t, u := old(shared).ticks[id], shared.ticks[id];
        && u.set_ == t.set_ && u.now == t.now && u.cursor == t.cursor + 1
        && u.rescored == if stamped.Some? then t.rescored + [stamped.value] else t.rescored
      ensures Measure(shared, id, 0) <= old(Measure(shared, id, 0))
      ensures stamped.Some? ==> Measure(shared, id, 0) < old(Measure(shared, id, 0))
    {
      var t := shared.ticks[id];
      VisitLowersMeasure(rescoreRateLimitMs, shared, id);
      StepKeepsInvariant(rescoreRateLimitMs, shared, Visit(id));
      es' := Then(es, Visit(id));
      stamped := match shared.sets[t.set_][t.cursor]
        case None => None
        case Some(user) => if MayRescore(shared.lastRescore, user, t.now, rescoreRateLimitMs) then Some(user) else None;
      shared := VisitSlot(rescoreRateLimitMs, shared, id);
    }

    /** The awaited part of a turn; `users` are those rescored before. */
    method RescoreStamped(id: nat, user: string, budget: nat, answers: string -> Answers, ghost start: nat,
                          ghost users: seq<string>, ghost before: World, ghost es: Trace)
      returns (succeeded: bool, left: nat, ghost es': Trace)
      requires Valid() && Reached(before, es) && start <= |rescores| && RescoresOf(users, answers, rescores[start..])
      requires id in shared.ticks && shared.ticks[id].rescored == users + [user]
      modifies this`shared, this`rescores, this`stats, riskSet, planCache
      ensures Valid() && Reached(before, es')
      ensures id in shared.ticks && SamePosition(old(shared).ticks[id], shared.ticks[id])
      ensures Measure(shared, id, left) <= old(Measure(shared, id, budget))
      ensures old(rescores) <= rescores
      ensures RescoresOf(users + [user], answers, rescores[start..])
      ensures |Succeeding(users + [user], answers)| == |Succeeding(users, answers)| + if succeeded then 1 else 0
      ensures stats == old(stats).(plansPrepared := stats.plansPrepared)
    {
      left, es' := Await(id, budget, before, es);
      succeeded := WriteRescore(user, answers, start, users);
    }

    /** What follows the answers: nothing if the check throws, else one rescore. */
    method WriteRescore(user: string, answers: string -> Answers, ghost start: nat, ghost users: seq<string>)
      returns (succeeded: bool)
      requires Valid() && start <= |rescores| && RescoresOf(users, answers, rescores[start..])
      modifies this`rescores, this`stats, riskSet, planCache
      ensures Valid() && old(rescores) <= rescores
      ensures RescoresOf(users + [user], answers, rescores[start..])
      ensures |Succeeding(users + [user], answers)| == |Succeeding(users, answers)| + if succeeded then 1 else 0
      ensures stats == old(stats).(plansPrepared := stats.plansPrepared)
    {
      SucceedingOfAppended(users, user, answers);
      succeeded := !answers(user).Throws?;
      if succeeded {
        RescoreUser(user, answers(user));
        ghost var last := rescores[|rescores| - 1];
        assert rescores[start..] == old(rescores)[start..] + [last];
        RescoresExtend(users, user, answers, old(rescores)[start..], last);
      }
    }

    lemma RescoresExtend(users: seq<string>, user: string, answers: string -> Answers, done: seq<Rescored>, r: Rescored)
      requires RescoresOf(users, answers, done)
      requires r.user == user && !answers(user).Throws?
      requires WritesOf(riskSet.cfg, planCache.cfg, prepareHfThreshold, answers(user), r)
      ensures RescoresOf(users + [user], answers, done + [r])
    {
      SucceedingOfAppended(users, user, answers);
    }

    /**
     Rescores one user: writes the fresh check to the risk set and, below the prepare threshold, caches a
     plan for the planner's best candidate.
     */
    method RescoreUser(user: string, a: Answers)
      requires Valid() && a.Answers?
      modifies this`stats, this`rescores, riskSet, planCache
      ensures Valid()
      ensures |rescores| == |old(rescores)| + 1 && old(rescores) <= rescores
      ensures rescores[|old(rescores)|].user == user
      ensures WritesOf(riskSet.cfg, planCache.cfg, prepareHfThreshold, a, rescores[|old(rescores)|])
      ensures var r := rescores[|old(rescores)|];
        && r.before == old(riskSet.candidates) && r.after == riskSet.candidates
        && r.plansBefore == old(planCache.Value()) && r.plansAfter == planCache.Value()
      ensures stats == old(stats).(plansPrepared :=
        old(stats).plansPrepared + if QuoteToPrepare(prepareHfThreshold, a).Some? then 1 else 0)
    {
      var clock: int := *;
      var now: nat := if clock > 0 then clock else 0;
      ghost var before, plansBefore := riskSet.candidates, planCache.Value();
      if a.check.Some? {
        var c := a.check.value;
        R.ApplyKeepsAdmitted(riskSet.cfg, riskSet.indexed, riskSet.candidates,
                             R.OpUpdate(user, c.healthFactor, c.debtUsd1e18, c.totalCollateralBase, now));
        var _ := riskSet.UpdateHF(user, c.healthFactor, c.debtUsd1e18, c.totalCollateralBase, now);
        if ShouldPrepare(c.healthFactor, prepareHfThreshold) {
          PreparePlan(user, a.candidates, a.quote, now);
        }
      }
      rescores := rescores
        + [Rescored(user, now, before, riskSet.candidates, plansBefore, planCache.Value())];
    }

    method PreparePlan(user: string, candidates: seq<P.CandidatePlan>, quote: X.QuoteRequest -> Option<X.Quote>,
                       now: nat)
      requires C.OnePerUser(planCache.cache)
      modifies this`stats, planCache
      ensures C.OnePerUser(planCache.cache)
      ensures candidates == [] ==> planCache.Value() == old(planCache.Value()) && stats == old(stats)
      ensures candidates != [] ==>
        var c := candidates[0];
        match quote(X.QuoteRequest(c.collateralAsset, c.debtAsset, c.expectedCollateralOut, c.collateralAsset, 100))
        case None => planCache.Value() == old(planCache.Value()) && stats == old(stats)
        case Some(q) =>
          && stats == old(stats).(plansPrepared := old(stats).plansPrepared + 1)
          && exists plan ::
               && IsPlanFor(plan, user, c, q, now)
               && planCache.Value() == C.Prepared(planCache.cfg, old(planCache.Value()), plan)
    {
      if |candidates| == 0 {
        return;
      }
      var candidate := candidates[0];
      var swapQuote := quote(RequestFor(candidate));
      if swapQuote == None {
        return;
      }
      var plan := PlanFor(user, candidate, swapQuote.value, now);
      assert IsPlanFor(plan, user, candidate, swapQuote.value, now);
      C.PrepareKeepsOnePerUser(planCache.cfg, planCache.Value(), plan);
      planCache.Prepare(plan);
      stats := stats.(plansPrepared := stats.plansPrepared + 1);
    }
  }
}
