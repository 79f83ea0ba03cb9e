/** The users at risk of liquidation (ActiveRiskSet.ts). Addresses are already canonical. */
module ActiveRiskSet {
  import opened Ordered
  import opened Arithmetic
  import opened HealthFactorChecker

  const REMOVAL_HF_MARGIN: real := 1.10

  datatype Config = Config(minDebtUsd: real, hfThresholdStart: real, indexRefreshMs: nat)

  datatype CandidateUser = CandidateUser(
    address: string,
    healthFactor: HealthFactor,
    lastDebtUsd1e18: nat,
    totalCollateralBase: nat,
    lastChecked: nat,
    lastIndexRefresh: nat)

  type Candidates = map<string, CandidateUser>

  /** The configured minimum, rounded down to whole dollars, at the 1e18 scale. */
  function MinDebt(cfg: Config): nat
    requires cfg.minDebtUsd >= 0.0
  {
    cfg.minDebtUsd.Floor * WAD
  }

  function Added(cfg: Config, m: Candidates, address: string, hf: HealthFactor, debt: nat, collateral: nat,
                 now: nat): Candidates
    requires cfg.minDebtUsd >= 0.0
  {
    if debt > 0 && debt < MinDebt(cfg) then m
    else m[address := CandidateUser(address, hf, debt, collateral, now, 0)]
  }

  /** Whether an update of a stored user is due for an index refresh. */
  predicate RefreshDue(cfg: Config, c: CandidateUser, now: nat) {
    now - c.lastIndexRefresh >= cfg.indexRefreshMs
  }

  function Updated(cfg: Config, m: Candidates, address: string, hf: HealthFactor, debt: nat, collateral: nat,
                   now: nat, indexed: bool): Candidates
    requires cfg.minDebtUsd >= 0.0
  {
    if debt < MinDebt(cfg) then m - {address}
    else if address in m then
      var refreshed := if indexed && RefreshDue(cfg, m[address], now) then now else m[address].lastIndexRefresh;
      m[address := CandidateUser(m[address].address, hf, debt, collateral, now, refreshed)]
    else Added(cfg, m, address, hf, debt, collateral, now)
  }

  /** What one check may change: its user is gone below the minimum debt, else holds what was checked; no one else. */
  ghost predicate WrittenBy(cfg: Config, before: Candidates, after: Candidates, address: string, hf: HealthFactor,
                            debt: nat, collateral: nat, now: nat)
  {
    && (forall a :: a != address ==> (a in after <==> a in before))
    && (forall a :: a != address && a in before ==> after[a] == before[a])
    && (address in after <==> debt >= cfg.minDebtUsd.Floor * 1_000_000_000_000_000_000)
    && (address in after ==>
          && after[address].address == (if address in before then before[address].address else address)
          && after[address].healthFactor == hf && after[address].lastDebtUsd1e18 == debt
          && after[address].totalCollateralBase == collateral && after[address].lastChecked == now)
  }

  predicate MustGo(cfg: Config, c: CandidateUser)
    requires cfg.minDebtUsd >= 0.0
  {
    c.lastDebtUsd1e18 < MinDebt(cfg) || Above(c.healthFactor, REMOVAL_HF_MARGIN)
  }

  function Pruned(cfg: Config, m: Candidates): Candidates
    requires cfg.minDebtUsd >= 0.0
  {
    map a | a in m && !MustGo(cfg, m[a]) :: m[a]
  }

  lemma PrunedAreAtRisk(cfg: Config, m: Candidates)
    requires cfg.minDebtUsd >= 0.0
    ensures forall a :: a in Pruned(cfg, m) <==>
      && a in m
      && m[a].lastDebtUsd1e18 >= cfg.minDebtUsd.Floor * 1_000_000_000_000_000_000
      && m[a].healthFactor.Num? && m[a].healthFactor.value <= 1.10
    ensures forall a :: a in Pruned(cfg, m) ==> Pruned(cfg, m)[a] == m[a]
  {
  }

  function AddedAll(cfg: Config, m: Candidates, addresses: seq<string>, now: nat): Candidates
    requires cfg.minDebtUsd >= 0.0
  {
    if addresses == [] then m
    else
      var before := AddedAll(cfg, m, addresses[..|addresses| - 1], now);
      Added(cfg, before, addresses[|addresses| - 1], Infinite, 0, 0, now)
  }

  class ActiveRiskSet {
    const cfg: Config
    /** Whether a user index and a data provider are wired in. */
    const indexed: bool
    var candidates: Candidates

    constructor (cfg: Config, indexed: bool)
      requires cfg.minDebtUsd >= 0.0
      ensures this.cfg == cfg && this.indexed == indexed && candidates == map[]
    {
      this.cfg, this.indexed, candidates := cfg, indexed, map[];
    }

    /** `refresh` tells that the user's tokens are to be re-indexed. */
    method Add(address: string, hf: HealthFactor, debt: nat, collateral: nat, now: nat) returns (refresh: bool)
      requires cfg.minDebtUsd >= 0.0
      modifies this
      ensures candidates == Added(cfg, old(candidates), address, hf, debt, collateral, now)
      ensures 0 < debt < cfg.minDebtUsd.Floor * 1_000_000_000_000_000_000 ==> candidates == old(candidates)
      ensures !(0 < debt < cfg.minDebtUsd.Floor * 1_000_000_000_000_000_000) ==>
        candidates == old(candidates)[address := CandidateUser(address, hf, debt, collateral, now, 0)]
      ensures refresh <==> indexed && !(0 < debt < MinDebt(cfg))
    {
      var minDebtUsd1e18 := MinDebt(cfg);
      if debt > 0 && debt < minDebtUsd1e18 {
        return false;
      }
      candidates := candidates[address := CandidateUser(address, hf, debt, collateral, now, 0)];
      refresh := indexed;
    }

    method AddBulk(addresses: seq<string>, now: nat)
      requires cfg.minDebtUsd >= 0.0
      modifies this
      ensures candidates == AddedAll(cfg, old(candidates), addresses, now)
      ensures forall a :: a in candidates <==> a in addresses || a in old(candidates)
      ensures forall a :: a in candidates ==>
        candidates[a] == if a in addresses then CandidateUser(a, Infinite, 0, 0, now, 0) else old(candidates)[a]
    {
      for i := 0 to |addresses|
        invariant candidates == AddedAll(cfg, old(candidates), addresses[..i], now)
      {
        assert addresses[..i + 1][..i] == addresses[..i];
        var refresh := Add(addresses[i], Infinite, 0, 0, now);
      }
      assert addresses[..|addresses|] == addresses;
      BulkAddsUnchecked(cfg, old(candidates), addresses, now);
    }

    method UpdateHF(address: string, hf: HealthFactor, debt: nat, collateral: nat, now: nat) returns (refresh: bool)
      requires cfg.minDebtUsd >= 0.0
      modifies this
      ensures candidates == Updated(cfg, old(candidates), address, hf, debt, collateral, now, indexed)
      ensures WrittenBy(cfg, old(candidates), candidates, address, hf, debt, collateral, now)
      ensures refresh <==>
        && indexed && debt >= cfg.minDebtUsd.Floor * 1_000_000_000_000_000_000
        && (address in old(candidates) ==> now - old(candidates)[address].lastIndexRefresh >= cfg.indexRefreshMs)
      ensures refresh && address in old(candidates) ==> candidates[address].lastIndexRefresh == now
    {
      refresh := false;
      if debt < MinDebt(cfg) {
        if address in candidates {
          candidates := candidates - {address};
        }
        return;
      }
      if address in candidates {
        var candidate := candidates[address];
        refresh := indexed && now - candidate.lastIndexRefresh >= cfg.indexRefreshMs;
        candidates := candidates[address := CandidateUser(candidate.address, hf, debt, collateral, now,
                                                          if refresh then now else candidate.lastIndexRefresh)];
      } else {
        refresh := Add(address, hf, debt, collateral, now);
      }
    }

    predicate ShouldRemove(address: string)
      requires cfg.minDebtUsd >= 0.0
      reads this
    {
      address in candidates && MustGo(cfg, candidates[address])
    }

    /** Deletes while iterating over the keys; removes exactly the users meeting `ShouldRemove` and counts them. */
    method PruneHealthyUsers() returns (removed: nat)
      requires cfg.minDebtUsd >= 0.0
      modifies this
      ensures candidates == Pruned(cfg, old(candidates))
      ensures forall a :: a in candidates <==>
        && a in old(candidates)
        && old(candidates)[a].lastDebtUsd1e18 >= cfg.minDebtUsd.Floor * 1_000_000_000_000_000_000
        && old(candidates)[a].healthFactor.Num? && old(candidates)[a].healthFactor.value <= 1.10
      ensures forall a :: a in candidates ==> candidates[a] == old(candidates)[a]
      ensures removed == |set a | a in old(candidates) && MustGo(cfg, old(candidates)[a])|
      ensures removed == |old(candidates)| - |candidates|
    {
      removed := DeleteWhileIterating();
      PrunedAreAtRisk(cfg, old(candidates));
    }

    /** The loop of `PruneHealthyUsers`. */
    method DeleteWhileIterating() returns (removed: nat)
      requires cfg.minDebtUsd >= 0.0
      modifies this
      ensures candidates == Pruned(cfg, old(candidates))
      ensures removed == |set a | a in old(candidates) && MustGo(cfg, old(candidates)[a])|
      ensures removed == |old(candidates)| - |candidates|
    {
      removed := 0;
      var keys := candidates.Keys;
      ghost var gone: set<string> := {};
      while keys != {}
        invariant keys <= old(candidates).Keys
        invariant gone == set a | a in old(candidates) && a !in keys && MustGo(cfg, old(candidates)[a])
        invariant candidates == old(candidates) - gone
        invariant removed == |gone|
        decreases |keys|
      {
        var address :| address in keys;
        keys := keys - {address};
        if ShouldRemove(address) {
          candidates := candidates - {address};
          removed := removed + 1;
          gone := gone + {address};
        }
      }
      assert gone == set a | a in old(candidates) && MustGo(cfg, old(candidates)[a]);
      assert candidates.Keys == old(candidates).Keys - gone;
    }

    /** The watched users: below the start threshold with at least the minimum debt. */
    method GetBelowThreshold() returns (watched: set<CandidateUser>)
      requires cfg.minDebtUsd >= 0.0
      ensures forall c :: c in watched <==>
        exists a :: a in candidates && c == candidates[a]
          && c.healthFactor.Num? && c.healthFactor.value < cfg.hfThresholdStart
          && c.lastDebtUsd1e18 >= cfg.minDebtUsd.Floor * 1_000_000_000_000_000_000
    {
      watched := set a | a in candidates && Below(candidates[a].healthFactor, cfg.hfThresholdStart)
        && candidates[a].lastDebtUsd1e18 >= MinDebt(cfg) :: candidates[a];
    }

    method Remove(address: string)
      modifies this
      ensures candidates == old(candidates) - {address}
    {
      candidates := candidates - {address};
    }
  }

  // ----- Whole runs -----

  datatype Op =
    | OpAddBulk(addresses: seq<string>, now: nat)
    | OpUpdate(address: string, hf: HealthFactor, debt: nat, collateral: nat, now: nat)
    | OpRemove(address: string)
    | OpPrune

  ghost function Apply(cfg: Config, indexed: bool, m: Candidates, op: Op): Candidates
    requires cfg.minDebtUsd >= 0.0
  {
    match op
    case OpAddBulk(addresses, now) => AddedAll(cfg, m, addresses, now)
    case OpUpdate(address, hf, debt, collateral, now) =>
      Updated(cfg, m, address, hf, debt, collateral, now, indexed)
    case OpRemove(address) => m - {address}
    case OpPrune => Pruned(cfg, m)
  }

  ghost function Run(cfg: Config, indexed: bool, ops: seq<Op>): Candidates
    requires cfg.minDebtUsd >= 0.0
  {
    if ops == [] then map[] else Apply(cfg, indexed, Run(cfg, indexed, ops[..|ops| - 1]), ops[|ops| - 1])
  }

  ghost predicate Unchecked(c: CandidateUser) {
    c.lastDebtUsd1e18 == 0 && c.healthFactor == Infinite
  }

  ghost predicate Admitted(cfg: Config, m: Candidates)
    requires cfg.minDebtUsd >= 0.0
  {
    forall a :: a in m ==> m[a].address == a && (Unchecked(m[a]) || m[a].lastDebtUsd1e18 >= MinDebt(cfg))
  }

  lemma {:induction false} BulkKeepsAdmitted(cfg: Config, m: Candidates, addresses: seq<string>, now: nat)
    requires cfg.minDebtUsd >= 0.0 && Admitted(cfg, m)
    ensures Admitted(cfg, AddedAll(cfg, m, addresses, now))
  {
    if addresses != [] {
      BulkKeepsAdmitted(cfg, m, addresses[..|addresses| - 1], now);
    }
  }

  lemma ApplyKeepsAdmitted(cfg: Config, indexed: bool, m: Candidates, op: Op)
    requires cfg.minDebtUsd >= 0.0 && Admitted(cfg, m)
    ensures Admitted(cfg, Apply(cfg, indexed, m, op))
  {
    match op
    case OpAddBulk(addresses, now) => BulkKeepsAdmitted(cfg, m, addresses, now);
    case OpUpdate(_, _, _, _, _) =>
    case OpRemove(_) =>
    case OpPrune =>
  }

  /** Whether the last operation that wrote the user's entry was a check, and not a bulk add. */
  ghost predicate Checked(ops: seq<Op>, address: string) {
    ops != [] &&
    match ops[|ops| - 1]
    case OpAddBulk(addresses, _) => address !in addresses && Checked(ops[..|ops| - 1], address)
    case OpUpdate(updated, _, _, _, _) => address == updated || Checked(ops[..|ops| - 1], address)
    case _ => Checked(ops[..|ops| - 1], address)
  }

  lemma {:induction false} BulkAddsUnchecked(cfg: Config, m: Candidates, addresses: seq<string>, now: nat)
    requires cfg.minDebtUsd >= 0.0
    ensures var n := AddedAll(cfg, m, addresses, now);
      && (forall a :: a in n <==> a in addresses || a in m)
      && (forall a :: a in n ==> n[a] == if a in addresses then CandidateUser(a, Infinite, 0, 0, now, 0) else m[a])
  {
    if addresses != [] {
      var init, last := addresses[..|addresses| - 1], addresses[|addresses| - 1];
      assert addresses == init + [last];
      BulkAddsUnchecked(cfg, m, init, now);
    }
  }

  /**
   In every run each stored user that was checked since it was added has at least the (rounded) minimum
   debt, and each one that was not has no debt and an infinite health factor.
   */
  lemma {:induction false} RunsKeepMinimumDebt(cfg: Config, indexed: bool, ops: seq<Op>)
    requires cfg.minDebtUsd >= 0.0
    ensures Admitted(cfg, Run(cfg, indexed, ops))
    ensures forall a :: a in Run(cfg, indexed, ops) ==>
      if Checked(ops, a) then Run(cfg, indexed, ops)[a].lastDebtUsd1e18 >= MinDebt(cfg)
      else Unchecked(Run(cfg, indexed, ops)[a])
  {
    if ops != [] {
      var init, op := ops[..|ops| - 1], ops[|ops| - 1];
      var before := Run(cfg, indexed, init);
      RunsKeepMinimumDebt(cfg, indexed, init);
      ApplyKeepsAdmitted(cfg, indexed, before, op);
      if op.OpAddBulk? {
        BulkAddsUnchecked(cfg, before, op.addresses, op.now);
      }
    }
  }

  /** A run whose updates are checks the checker can report. */
  ghost predicate FromChecker(base: BaseCurrency, ops: seq<Op>) {
    forall i :: 0 <= i < |ops| && ops[i].OpUpdate? ==>
      Emitted(base, Check(ops[i].hf, ops[i].debt, ops[i].collateral))
  }

  /** A first check of a user with the minimum debt leaves it stored and checked, with exactly that debt. */
  lemma OneCheck(cfg: Config, base: BaseCurrency, indexed: bool) returns (ops: seq<Op>)
    requires cfg.minDebtUsd >= 0.0 && base.decimals <= 18
    ensures FromChecker(base, ops) && Checked(ops, "user")
    ensures "user" in Run(cfg, indexed, ops) && Run(cfg, indexed, ops)["user"].lastDebtUsd1e18 == MinDebt(cfg)
  {
    var c := WholeDollarsAreEmitted(base, cfg.minDebtUsd.Floor);
    ops := [OpUpdate("user", c.healthFactor, c.debtUsd1e18, c.totalCollateralBase, 0)];
    assert c == Check(c.healthFactor, c.debtUsd1e18, c.totalCollateralBase);
    assert ops[..0] == [];
    assert Run(cfg, indexed, ops[..0]) == map[];
  }

  /** Every checked user's debt reaches the minimum as configured, cents included. */
  ghost predicate ReachesConfiguredMinimum(cfg: Config, indexed: bool, ops: seq<Op>)
    requires cfg.minDebtUsd >= 0.0
  {
    forall a :: a in Run(cfg, indexed, ops) && Checked(ops, a) ==>
      Run(cfg, indexed, ops)[a].lastDebtUsd1e18 as real >= cfg.minDebtUsd * WAD as real
  }

  /**
   The documented filter - no checked user below MIN_DEBT_USD - holds in every run of the checker's results
   exactly when the configured minimum is a whole number of dollars.
   */
  lemma ConfiguredMinimumHoldsIff(cfg: Config, base: BaseCurrency, indexed: bool)
    requires cfg.minDebtUsd >= 0.0 && base.decimals <= 18
    ensures (forall ops :: FromChecker(base, ops) ==> ReachesConfiguredMinimum(cfg, indexed, ops))
       <==> cfg.minDebtUsd == cfg.minDebtUsd.Floor as real
  {
    if cfg.minDebtUsd == cfg.minDebtUsd.Floor as real {
      forall ops | FromChecker(base, ops) ensures ReachesConfiguredMinimum(cfg, indexed, ops) {
        RunsKeepMinimumDebt(cfg, indexed, ops);
        assert cfg.minDebtUsd * WAD as real == MinDebt(cfg) as real;
      }
    } else {
      var ops := OneCheck(cfg, base, indexed);
      assert MinDebt(cfg) as real == cfg.minDebtUsd.Floor as real * WAD as real;
      assert MinDebt(cfg) as real < cfg.minDebtUsd * WAD as real;
      assert !ReachesConfiguredMinimum(cfg, indexed, ops);
    }
  }

  /** Every stored user without debt has not been checked since it was added. */
  ghost predicate ZeroDebtMeansUnchecked(cfg: Config, indexed: bool, ops: seq<Op>)
    requires cfg.minDebtUsd >= 0.0
  {
    forall a :: a in Run(cfg, indexed, ops) && Run(cfg, indexed, ops)[a].lastDebtUsd1e18 == 0 ==> !Checked(ops, a)
  }

  /**
   A stored user without debt is one not checked yet, in every run of the checker's results, exactly when
   the minimum is at least a dollar: below that a check that finds no debt leaves the user in the set.
   */
  lemma ZeroDebtMeansUncheckedIff(cfg: Config, base: BaseCurrency, indexed: bool)
    requires cfg.minDebtUsd >= 0.0 && base.decimals <= 18
    ensures (forall ops :: FromChecker(base, ops) ==> ZeroDebtMeansUnchecked(cfg, indexed, ops))
       <==> cfg.minDebtUsd >= 1.0
  {
    if cfg.minDebtUsd >= 1.0 {
      forall ops | FromChecker(base, ops) ensures ZeroDebtMeansUnchecked(cfg, indexed, ops) {
        RunsKeepMinimumDebt(cfg, indexed, ops);
      }
    } else {
      var ops := OneCheck(cfg, base, indexed);
      assert MinDebt(cfg) == 0;
      assert !ZeroDebtMeansUnchecked(cfg, indexed, ops);
    }
  }
}
