/**
 The bounded cache of prepared plans (PlanCache.ts). A JavaScript `Map` iterates in insertion order, so
 the cache is the sequence of its plans, at most one per user.
 */
module PlanCache {
  import opened Ordered

  datatype PreparedPlan = PreparedPlan(
    user: string,
    debtAsset: string,
    collateralAsset: string,
    debtToCover: nat,
    expectedCollateralOut: nat,
    minOut: int,
    oneInchCalldata: string,
    score: int,
    createdAt: int,
    debtAssetDecimals: nat,
    collateralAssetDecimals: nat,
    liquidationBonusBps: nat)

  datatype Stats = Stats(plansCached: nat, expired: nat, evicted: nat, hits: nat, misses: nat)

  datatype Config = Config(ttlMs: int, maxUsers: int)

  datatype State = State(plans: seq<PreparedPlan>, stats: Stats)

  // ----- The map -----

  ghost predicate OnePerUser(plans: seq<PreparedPlan>) {
    forall i, j :: 0 <= i < j < |plans| ==> plans[i].user != plans[j].user
  }

  ghost function Users(plans: seq<PreparedPlan>): set<string> {
    set p | p in plans :: p.user
  }

  /** The position of the user's plan, or the length. */
  function IndexOf(plans: seq<PreparedPlan>, user: string): (i: nat)
    ensures i <= |plans|
    ensures i < |plans| ==> plans[i].user == user
    ensures forall j :: 0 <= j < i ==> plans[j].user != user
  {
    if plans == [] then 0
    else
      var i := IndexOf(plans[..|plans| - 1], user);
      assert forall j :: 0 <= j < |plans| - 1 ==> plans[..|plans| - 1][j] == plans[j];
      if i < |plans| - 1 || plans[|plans| - 1].user == user then i else |plans|
  }

  function Find(plans: seq<PreparedPlan>, user: string): Option<PreparedPlan> {
    var i := IndexOf(plans, user);
    if i < |plans| then Some(plans[i]) else None
  }

  function Delete(plans: seq<PreparedPlan>, user: string): seq<PreparedPlan> {
    var i := IndexOf(plans, user);
    if i < |plans| then plans[..i] + plans[i + 1..] else plans
  }

  /** `Map.set` keeps the position of an existing key. */
  function Put(plans: seq<PreparedPlan>, plan: PreparedPlan): seq<PreparedPlan> {
    var i := IndexOf(plans, plan.user);
    if i < |plans| then plans[i := plan] else plans + [plan]
  }

  lemma DeleteRemovesOnlyThatUser(plans: seq<PreparedPlan>, user: string)
    requires OnePerUser(plans)
    ensures OnePerUser(Delete(plans, user))
    ensures forall p :: p in Delete(plans, user) <==> p in plans && p.user != user
    ensures |Delete(plans, user)| == |plans| - if Find(plans, user).Some? then 1 else 0
    ensures Find(plans, user).Some? <==> user in Users(plans)
  {
    var i := IndexOf(plans, user);
    var r := Delete(plans, user);
    if i < |plans| {
      forall p | p in plans && p.user != user ensures p in r {
        var j :| 0 <= j < |plans| && plans[j] == p;
        assert if j < i then r[j] == p else r[j - 1] == p;
      }
    }
  }

  lemma PutReplacesOnlyThatUser(plans: seq<PreparedPlan>, plan: PreparedPlan)
    requires OnePerUser(plans)
    ensures OnePerUser(Put(plans, plan))
    ensures forall p :: p in Put(plans, plan) <==> p == plan || (p in plans && p.user != plan.user)
    ensures |Put(plans, plan)| == |plans| + if Find(plans, plan.user).Some? then 0 else 1
  {
    var i := IndexOf(plans, plan.user);
    var r := Put(plans, plan);
    assert r[i] == plan;
    forall p | p in plans && p.user != plan.user ensures p in r {
      var j :| 0 <= j < |plans| && plans[j] == p;
      assert r[j] == p;
    }
  }

  lemma FindGivesTheUsersPlan(plans: seq<PreparedPlan>, p: PreparedPlan)
    requires OnePerUser(plans) && p in plans
    ensures Find(plans, p.user) == Some(p)
  {
    var j :| 0 <= j < |plans| && plans[j] == p;
  }

  // ----- The operations -----

  /** The first plan with the smallest creation time. */
  ghost predicate IsOldest(plans: seq<PreparedPlan>, k: nat) {
    && k < |plans|
    && (forall j :: 0 <= j < |plans| ==> plans[k].createdAt <= plans[j].createdAt)
    && (forall j :: 0 <= j < k ==> plans[k].createdAt < plans[j].createdAt)
  }

  function OldestIndex(plans: seq<PreparedPlan>): (k: nat)
    requires plans != []
    ensures IsOldest(plans, k)
  {
    if |plans| == 1 then 0
    else
      var k := OldestIndex(plans[..|plans| - 1]);
      assert forall j :: 0 <= j < |plans| - 1 ==> plans[..|plans| - 1][j] == plans[j];
      if plans[|plans| - 1].createdAt < plans[k].createdAt then |plans| - 1 else k
  }

  function Evicted(s: State): State {
    if s.plans == [] then s
    else
      State(Delete(s.plans, s.plans[OldestIndex(s.plans)].user), s.stats.(evicted := s.stats.evicted + 1))
  }

  predicate MustEvict(cfg: Config, s: State, plan: PreparedPlan) {
    |s.plans| >= cfg.maxUsers && Find(s.plans, plan.user) == None
  }

  function Prepared(cfg: Config, s: State, plan: PreparedPlan): State {
    var t := if MustEvict(cfg, s, plan) then Evicted(s) else s;
    State(Put(t.plans, plan), t.stats.(plansCached := t.stats.plansCached + 1))
  }

  predicate Expired(cfg: Config, plan: PreparedPlan, now: int) {
    now - plan.createdAt > cfg.ttlMs
  }

  function Got(cfg: Config, s: State, user: string, now: int): (State, Option<PreparedPlan>) {
    match Find(s.plans, user)
    case None => (s.(stats := s.stats.(misses := s.stats.misses + 1)), None)
    case Some(plan) =>
      if Expired(cfg, plan, now) then
        (State(Delete(s.plans, user), s.stats.(expired := s.stats.expired + 1, misses := s.stats.misses + 1)), None)
      else
        (s.(stats := s.stats.(hits := s.stats.hits + 1)), Some(plan))
  }

  function Invalidated(s: State, user: string): State {
    s.(plans := Delete(s.plans, user))
  }

  class PlanCache {
    var cache: seq<PreparedPlan>
    var stats: Stats
    const cfg: Config

    /** Zero settings take the defaults. */
    constructor (ttlMs: int, maxUsers: int)
      ensures cfg == Config(if ttlMs == 0 then 15000 else ttlMs, if maxUsers == 0 then 2000 else maxUsers)
      ensures Value() == State([], Stats(0, 0, 0, 0, 0))
    {
      cache, stats := [], Stats(0, 0, 0, 0, 0);
      cfg := Config(if ttlMs == 0 then 15000 else ttlMs, if maxUsers == 0 then 2000 else maxUsers);
    }

    ghost function Value(): State
      reads this
    {
      State(cache, stats)
    }

    method Prepare(plan: PreparedPlan)
      modifies this
      ensures Value() == Prepared(cfg, old(Value()), plan)
    {
      if |cache| >= cfg.maxUsers && Find(cache, plan.user) == None {
        EvictOldest();
      }
      cache := Put(cache, plan);
      stats := stats.(plansCached := stats.plansCached + 1);
    }

    method Get(user: string, now: int) returns (plan: Option<PreparedPlan>)
      modifies this
      ensures (Value(), plan) == Got(cfg, old(Value()), user, now)
    {
      plan := Find(cache, user);
      if plan == None {
        stats := stats.(misses := stats.misses + 1);
        return;
      }
      var age := now - plan.value.createdAt;
      if age > cfg.ttlMs {
        cache := Delete(cache, user);
        stats := stats.(expired := stats.expired + 1);
        stats := stats.(misses := stats.misses + 1);
        return None;
      }
      stats := stats.(hits := stats.hits + 1);
    }

    method Invalidate(user: string)
      modifies this
      ensures Value() == Invalidated(old(Value()), user)
    {
      cache := Delete(cache, user);
    }

    /** Scans the entries with an updating minimum; strict comparison keeps the first of equals. */
    method EvictOldest()
      modifies this
      ensures Value() == Evicted(old(Value()))
    {
      var oldest: Option<PreparedPlan> := None;
      for i := 0 to |cache|
        invariant oldest == if i == 0 then None else Some(cache[OldestIndex(cache[..i])])
      {
        assert cache[..i + 1][..i] == cache[..i];
        if oldest == None || cache[i].createdAt < oldest.value.createdAt {
          oldest := Some(cache[i]);
        }
      }
      assert cache[..|cache|] == cache;
      if oldest.Some? {
        cache := Delete(cache, oldest.value.user);
        stats := stats.(evicted := stats.evicted + 1);
      }
    }

    method Clear()
      modifies this
      ensures Value() == old(Value()).(plans := [])
    {
      cache := [];
    }
  }

  // ----- Whole runs -----

  datatype Op = OpPrepare(plan: PreparedPlan) | OpGet(user: string, now: int) | OpInvalidate(user: string) | OpClear

  /**
   A run beside its unbounded reference: `latest` is the last plan prepared for each user since its
   last invalidation; `gone` are the users whose latest plan was evicted or expired; the counters
   are what the statistics do not count.
   */
  datatype Ledger = Ledger(
    state: State,
    latest: map<string, PreparedPlan>,
    gone: set<string>,
    gets: nat,
    overwrites: nat,
    invalidated: nat,
    cleared: nat)

  const EMPTY_LEDGER := Ledger(State([], Stats(0, 0, 0, 0, 0)), map[], {}, 0, 0, 0, 0)

  ghost function Apply(cfg: Config, l: Ledger, op: Op): Ledger {
    var s := l.state;
    match op
    case OpPrepare(plan) =>
      var evicted := if MustEvict(cfg, s, plan) && s.plans != [] then {s.plans[OldestIndex(s.plans)].user} else {};
      l.(state := Prepared(cfg, s, plan), latest := l.latest[plan.user := plan],
         gone := l.gone + evicted - {plan.user},
         overwrites := l.overwrites + if Find(s.plans, plan.user).Some? then 1 else 0)
    case OpGet(user, now) =>
      var dropped := if Find(s.plans, user).Some? && Expired(cfg, Find(s.plans, user).value, now) then {user} else {};
      l.(state := Got(cfg, s, user, now).0, gets := l.gets + 1, gone := l.gone + dropped)
    case OpInvalidate(user) =>
      l.(state := Invalidated(s, user), latest := l.latest - {user}, gone := l.gone - {user},
         invalidated := l.invalidated + if Find(s.plans, user).Some? then 1 else 0)
    case OpClear =>
      l.(state := s.(plans := []), latest := map[], gone := {}, cleared := l.cleared + |s.plans|)
  }

  ghost function Run(cfg: Config, ops: seq<Op>): Ledger {
    if ops == [] then EMPTY_LEDGER else Apply(cfg, Run(cfg, ops[..|ops| - 1]), ops[|ops| - 1])
  }

  ghost predicate LedgerInvariant(cfg: Config, l: Ledger) {
    var plans, stats := l.state.plans, l.state.stats;
    && OnePerUser(plans)
    && (forall p :: p in plans ==> p.user in l.latest && l.latest[p.user] == p)
    && Users(plans) !! l.gone
    && l.latest.Keys == Users(plans) + l.gone
    && |plans| <= (if cfg.maxUsers < 1 then 1 else cfg.maxUsers)
    && stats.hits + stats.misses == l.gets
    && |plans| + l.overwrites + stats.evicted + stats.expired + l.invalidated + l.cleared == stats.plansCached
  }

  /** Eviction takes one plan, the first of the oldest, and only when the cache is full. */
  lemma EvictionTakesTheOldest(s: State)
    requires OnePerUser(s.plans) && s.plans != []
    ensures var victim := s.plans[OldestIndex(s.plans)]; var t := Evicted(s);
      && OnePerUser(t.plans) && |t.plans| == |s.plans| - 1
      && (forall p :: p in t.plans <==> p in s.plans && p != victim)
      && (forall p :: p in s.plans ==> victim.createdAt <= p.createdAt)
      && Users(t.plans) == Users(s.plans) - {victim.user}
  {
    var victim := s.plans[OldestIndex(s.plans)];
    DeleteRemovesOnlyThatUser(s.plans, victim.user);
    FindGivesTheUsersPlan(s.plans, victim);
    forall p | p in s.plans && p.user == victim.user ensures p == victim {
      FindGivesTheUsersPlan(s.plans, p);
    }
  }

  ghost function AfterEviction(cfg: Config, l: Ledger, plan: PreparedPlan): Ledger {
    if MustEvict(cfg, l.state, plan) && l.state.plans != [] then
      l.(state := Evicted(l.state), gone := l.gone + {l.state.plans[OldestIndex(l.state.plans)].user})
    else l
  }

  lemma EvictionKeepsInvariant(cfg: Config, l: Ledger, plan: PreparedPlan)
    requires LedgerInvariant(cfg, l)
    ensures LedgerInvariant(cfg, AfterEviction(cfg, l, plan))
    ensures var t := AfterEviction(cfg, l, plan).state.plans;
      && Find(t, plan.user).Some? == Find(l.state.plans, plan.user).Some?
      && (Find(t, plan.user).Some? || |t| < cfg.maxUsers || |t| == 0)
  {
    var s := l.state;
    DeleteRemovesOnlyThatUser(s.plans, plan.user);
    if MustEvict(cfg, s, plan) && s.plans != [] {
      EvictionTakesTheOldest(s);
      DeleteRemovesOnlyThatUser(Evicted(s).plans, plan.user);
    }
  }

  lemma PrepareKeepsOnePerUser(cfg: Config, s: State, plan: PreparedPlan)
    requires OnePerUser(s.plans)
    ensures OnePerUser(Prepared(cfg, s, plan).plans)
  {
    var t := if MustEvict(cfg, s, plan) then Evicted(s) else s;
    if MustEvict(cfg, s, plan) && s.plans != [] {
      EvictionTakesTheOldest(s);
    }
    PutReplacesOnlyThatUser(t.plans, plan);
  }

  /** A plan just prepared is the one `get` answers with, until it is older than the TTL. */
  lemma PreparedIsServed(cfg: Config, s: State, plan: PreparedPlan, now: int)
    requires OnePerUser(s.plans)
    ensures Got(cfg, Prepared(cfg, s, plan), plan.user, now).1
         == if now - plan.createdAt <= cfg.ttlMs then Some(plan) else None
  {
    var t := if MustEvict(cfg, s, plan) then Evicted(s) else s;
    if MustEvict(cfg, s, plan) && s.plans != [] {
      EvictionTakesTheOldest(s);
    }
    PutReplacesOnlyThatUser(t.plans, plan);
    FindGivesTheUsersPlan(Put(t.plans, plan), plan);
  }

  lemma GetKeepsOnePerUser(cfg: Config, s: State, user: string, now: int)
    requires OnePerUser(s.plans)
    ensures OnePerUser(Got(cfg, s, user, now).0.plans)
  {
    DeleteRemovesOnlyThatUser(s.plans, user);
  }

  lemma InvalidateDropsTheUser(s: State, user: string)
    requires OnePerUser(s.plans)
    ensures OnePerUser(Invalidated(s, user).plans)
    ensures Find(Invalidated(s, user).plans, user) == None
  {
    DeleteRemovesOnlyThatUser(s.plans, user);
  }

  lemma UsersAfterPut(plans: seq<PreparedPlan>, plan: PreparedPlan)
    requires OnePerUser(plans)
    ensures Users(Put(plans, plan)) == Users(plans) + {plan.user}
  {
    PutReplacesOnlyThatUser(plans, plan);
    assert plan in Put(plans, plan);
    forall u | u in Users(plans) && u != plan.user ensures u in Users(Put(plans, plan)) {
      var p :| p in plans && p.user == u;
      assert p in Put(plans, plan);
    }
  }

  /** The second half of `prepare`, once there is room. */
  ghost function AfterPut(l: Ledger, plan: PreparedPlan): Ledger {
    var stats := l.state.stats;
    l.(state := State(Put(l.state.plans, plan), stats.(plansCached := stats.plansCached + 1)),
       latest := l.latest[plan.user := plan], gone := l.gone - {plan.user},
       overwrites := l.overwrites + if Find(l.state.plans, plan.user).Some? then 1 else 0)
  }

  lemma PutKeepsInvariant(cfg: Config, l: Ledger, plan: PreparedPlan)
    requires LedgerInvariant(cfg, l)
    requires Find(l.state.plans, plan.user).Some? || |l.state.plans| < cfg.maxUsers || |l.state.plans| == 0
    ensures LedgerInvariant(cfg, AfterPut(l, plan))
  {
    PutReplacesOnlyThatUser(l.state.plans, plan);
    UsersAfterPut(l.state.plans, plan);
  }

  lemma PrepareKeepsInvariant(cfg: Config, l: Ledger, plan: PreparedPlan)
    requires LedgerInvariant(cfg, l)
    ensures LedgerInvariant(cfg, Apply(cfg, l, OpPrepare(plan)))
  {
    EvictionKeepsInvariant(cfg, l, plan);
    PutKeepsInvariant(cfg, AfterEviction(cfg, l, plan), plan);
    assert Apply(cfg, l, OpPrepare(plan)) == AfterPut(AfterEviction(cfg, l, plan), plan);
  }

  lemma UsersAfterDelete(plans: seq<PreparedPlan>, user: string)
    requires OnePerUser(plans)
    ensures Users(Delete(plans, user)) == Users(plans) - {user}
  {
    DeleteRemovesOnlyThatUser(plans, user);
    forall u | u in Users(plans) && u != user ensures u in Users(Delete(plans, user)) {
      var p :| p in plans && p.user == u;
      assert p in Delete(plans, user);
    }
  }

  lemma GetKeepsInvariant(cfg: Config, l: Ledger, user: string, now: int)
    requires LedgerInvariant(cfg, l)
    ensures LedgerInvariant(cfg, Apply(cfg, l, OpGet(user, now)))
  {
    DeleteRemovesOnlyThatUser(l.state.plans, user);
    UsersAfterDelete(l.state.plans, user);
  }

  lemma InvalidateKeepsInvariant(cfg: Config, l: Ledger, user: string)
    requires LedgerInvariant(cfg, l)
    ensures LedgerInvariant(cfg, Apply(cfg, l, OpInvalidate(user)))
  {
    DeleteRemovesOnlyThatUser(l.state.plans, user);
    UsersAfterDelete(l.state.plans, user);
  }

  lemma ApplyKeepsInvariant(cfg: Config, l: Ledger, op: Op)
    requires LedgerInvariant(cfg, l)
    ensures LedgerInvariant(cfg, Apply(cfg, l, op))
  {
    match op
    case OpPrepare(plan) => PrepareKeepsInvariant(cfg, l, plan);
    case OpGet(user, now) => GetKeepsInvariant(cfg, l, user, now);
    case OpInvalidate(user) => InvalidateKeepsInvariant(cfg, l, user);
    case OpClear =>
  }

  /**
   Over every run: the cache holds at most one plan per user and at most max(1, maxUsers) of them, each
   the latest; the users with a latest plan are exactly those cached and those whose plan was evicted or
   expired; hits and misses add up to the gets; every cached plan is still there or accounted for.
   */
  lemma {:induction false} RunsAreAccountedFor(cfg: Config, ops: seq<Op>)
    ensures LedgerInvariant(cfg, Run(cfg, ops))
  {
    if ops != [] {
      RunsAreAccountedFor(cfg, ops[..|ops| - 1]);
      ApplyKeepsInvariant(cfg, Run(cfg, ops[..|ops| - 1]), ops[|ops| - 1]);
    }
  }

  /**
   The cache refines the unbounded map: after any run `get` answers with exactly the latest plan, and
   does so precisely when there is one, it is not older than the TTL, and it was not dropped before.
   */
  lemma GetRefinesLatest(cfg: Config, ops: seq<Op>, user: string, now: int)
    ensures var l := Run(cfg, ops); var answer := Got(cfg, l.state, user, now).1;
      && (answer.Some? ==>
            user in l.latest && answer.value == l.latest[user] && now - answer.value.createdAt <= cfg.ttlMs)
      && (answer.Some? <==> user in l.latest && user !in l.gone && now - l.latest[user].createdAt <= cfg.ttlMs)
  {
    RunsAreAccountedFor(cfg, ops);
    var l := Run(cfg, ops);
    if user in Users(l.state.plans) {
      var p :| p in l.state.plans && p.user == user;
      FindGivesTheUsersPlan(l.state.plans, p);
    } else {
      DeleteRemovesOnlyThatUser(l.state.plans, user);
    }
  }

  /** A plan is lost to capacity only when maxUsers plans are present and all are at least as new. */
  lemma EvictionIsJustified(cfg: Config, ops: seq<Op>, plan: PreparedPlan, lost: PreparedPlan)
    requires cfg.maxUsers >= 1
    requires lost in Run(cfg, ops).state.plans && lost.user != plan.user
    requires lost !in Prepared(cfg, Run(cfg, ops).state, plan).plans
    ensures |Run(cfg, ops).state.plans| == cfg.maxUsers
    ensures forall p :: p in Run(cfg, ops).state.plans ==> lost.createdAt <= p.createdAt
  {
    var s := Run(cfg, ops).state;
    RunsAreAccountedFor(cfg, ops);
    if MustEvict(cfg, s, plan) {
      EvictionTakesTheOldest(s);
      PutReplacesOnlyThatUser(Evicted(s).plans, plan);
    } else {
      PutReplacesOnlyThatUser(s.plans, plan);
    }
  }
}
