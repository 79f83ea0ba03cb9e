/** The bounded batch verification loop (verifierLoop.ts): from "marked dirty" to entering `onExecute`. */
module VerifierLoop {
  import opened Ordered
  import Q = DirtyQueue
  import R = ActiveRiskSet
  import opened HealthFactorChecker

  /** One result written to the risk set, with the set before and after. */
  datatype Write = Write(address: string, before: R.Candidates, after: R.Candidates)

  /** An entry into `onExecute`, with what the risk set held for the user and the number of writes until then. */
  datatype Execution = Execution(
    user: string,
    healthFactor: HealthFactor,
    debtUsd1e18: nat,
    held: Option<R.CandidateUser>,
    writes: nat)

  predicate ShouldExecute(cfg: R.Config, hfThresholdExecute: real, c: Check)
    requires cfg.minDebtUsd >= 0.0
  {
    AtMost(c.healthFactor, hfThresholdExecute) && c.debtUsd1e18 >= R.MinDebt(cfg)
  }

  /** The results to execute: at or below the threshold, with at least the minimum debt. */
  ghost function DueAt(cfg: R.Config, hfThresholdExecute: real, results: seq<CheckResult>): nat -> bool {
    (i: nat) =>
      && i < |results|
      && results[i].check.healthFactor.Num? && results[i].check.healthFactor.value <= hfThresholdExecute
      && results[i].check.debtUsd1e18 >= cfg.minDebtUsd.Floor * 1_000_000_000_000_000_000
  }

  ghost predicate IsWrite(cfg: R.Config, r: CheckResult, now: nat, w: Write) {
    && w.address == r.address
    && R.WrittenBy(cfg, w.before, w.after, r.address, r.check.healthFactor, r.check.debtUsd1e18,
                   r.check.totalCollateralBase, now)
  }

  /** The execution of a result right after its write, the `writes`-th: with the checked values, which the set holds. */
  ghost predicate IsExecution(r: CheckResult, after: R.Candidates, writes: nat, e: Execution) {
    && e.user == r.address && e.writes == writes
    && e.healthFactor == r.check.healthFactor && e.debtUsd1e18 == r.check.debtUsd1e18
    && e.user in after && e.held == Some(after[e.user])
    && e.held.value.address == e.user
    && e.held.value.healthFactor == e.healthFactor && e.held.value.lastDebtUsd1e18 == e.debtUsd1e18
  }

  /** The first n results are written, in order. */
  ghost predicate AreWritten(cfg: R.Config, results: seq<CheckResult>, n: nat, now: nat, writes: seq<Write>)
    requires n <= |results|
  {
    |writes| == n && forall i :: 0 <= i < n ==> IsWrite(cfg, results[i], now, writes[i])
  }

  /** The due ones of the first n results are executed, in order, each after its own write. */
  ghost predicate AreExecuted(due: seq<nat>, results: seq<CheckResult>, earlier: nat, writes: seq<Write>,
                              executions: seq<Execution>)
    requires |writes| <= |results|
  {
    && |executions| == |due|
    && forall k :: 0 <= k < |due| ==>
         due[k] < |writes|
         && IsExecution(results[due[k]], writes[due[k]].after, earlier + due[k] + 1, executions[k])
  }

  /** A result due for execution is, once written to the set, held with exactly the checked values. */
  lemma DueUsersAreHeld(cfg: R.Config, hfThresholdExecute: real, m: R.Candidates, r: CheckResult, now: nat,
                        indexed: bool)
    requires cfg.minDebtUsd >= 0.0 && R.Admitted(cfg, m)
    requires ShouldExecute(cfg, hfThresholdExecute, r.check)
    ensures var n := R.Updated(cfg, m, r.address, r.check.healthFactor, r.check.debtUsd1e18,
                               r.check.totalCollateralBase, now, indexed);
      && R.Admitted(cfg, n)
      && r.address in n && n[r.address].address == r.address
      && n[r.address].healthFactor == r.check.healthFactor && n[r.address].lastDebtUsd1e18 == r.check.debtUsd1e18
  {
  }

  lemma WritesGrow(cfg: R.Config, results: seq<CheckResult>, now: nat, writes: seq<Write>, w: Write)
    requires |writes| < |results| && AreWritten(cfg, results, |writes|, now, writes)
    requires IsWrite(cfg, results[|writes|], now, w)
    ensures AreWritten(cfg, results, |writes| + 1, now, writes + [w])
  {
    forall i | 0 <= i < |writes| + 1 ensures IsWrite(cfg, results[i], now, (writes + [w])[i]) {
      if i < |writes| { assert IsWrite(cfg, results[i], now, writes[i]); }
    }
  }

  /** A write without an execution. */
  lemma WriteKeepsExecutions(due: seq<nat>, results: seq<CheckResult>, earlier: nat, writes: seq<Write>, w: Write,
                             executions: seq<Execution>)
    requires |writes| < |results| && AreExecuted(due, results, earlier, writes, executions)
    ensures AreExecuted(due, results, earlier, writes + [w], executions)
  {
    forall k | 0 <= k < |due|
      ensures due[k] < |writes| + 1
      ensures IsExecution(results[due[k]], (writes + [w])[due[k]].after, earlier + due[k] + 1, executions[k])
    {
      assert (writes + [w])[due[k]] == writes[due[k]];
    }
  }

  /** A write with its execution. */
  lemma ExecutionExtends(due: seq<nat>, results: seq<CheckResult>, earlier: nat, writes: seq<Write>,
                         executions: seq<Execution>, e: Execution)
    requires 0 < |writes| <= |results| && AreExecuted(due, results, earlier, writes, executions)
    requires IsExecution(results[|writes| - 1], writes[|writes| - 1].after, earlier + |writes|, e)
    ensures AreExecuted(due + [|writes| - 1], results, earlier, writes, executions + [e])
  {
    var next, more := due + [|writes| - 1], executions + [e];
    forall k | 0 <= k < |next|
      ensures next[k] < |writes|
      ensures IsExecution(results[next[k]], writes[next[k]].after, earlier + next[k] + 1, more[k])
    {
      if k < |due| {
        assert next[k] == due[k] && more[k] == executions[k];
      } else {
        assert next[k] == |writes| - 1 && more[k] == e;
      }
    }
  }

  lemma TurnExtendsBy(isDue: bool, due: seq<nat>, results: seq<CheckResult>, earlier: nat, writes: seq<Write>, w: Write,
                      executions: seq<Execution>, more: seq<Execution>)
    requires |writes| < |results| && AreExecuted(due, results, earlier, writes, executions)
    requires if isDue then |more| == 1 && IsExecution(results[|writes|], w.after, earlier + |writes| + 1, more[0])
      else more == []
    ensures AreExecuted(if isDue then due + [|writes|] else due, results, earlier, writes + [w], executions + more)
  {
    WriteKeepsExecutions(due, results, earlier, writes, w, executions);
    if isDue {
      ExecutionExtends(due, results, earlier, writes + [w], executions, more[0]);
      assert more == [more[0]];
    } else {
      assert executions + more == executions;
    }
  }

  /** One more write, with the execution that follows it if its result is due. */
  lemma TurnExtends(due: nat -> bool, results: seq<CheckResult>, earlier: nat, writes: seq<Write>, w: Write,
                    executions: seq<Execution>, more: seq<Execution>)
    requires |writes| < |results| && AreExecuted(Kept(|writes|, due), results, earlier, writes, executions)
    requires if due(|writes|) then
        |more| == 1 && IsExecution(results[|writes|], w.after, earlier + |writes| + 1, more[0])
      else more == []
    ensures AreExecuted(Kept(|writes| + 1, due), results, earlier, writes + [w], executions + more)
  {
    KeptNext(|writes|, due);
    TurnExtendsBy(due(|writes|), Kept(|writes|, due), results, earlier, writes, w, executions, more);
  }

  class VerifierLoop {
    const dirtyQueue: Q.DirtyQueue
    const riskSet: R.ActiveRiskSet
    const base: BaseCurrency
    const batchSize: int
    const hfThresholdExecute: real
    ghost var writes: seq<Write>
    ghost var executions: seq<Execution>

    constructor (dirtyQueue: Q.DirtyQueue, riskSet: R.ActiveRiskSet, base: BaseCurrency, batchSize: int,
                 hfThresholdExecute: real)
      ensures this.dirtyQueue == dirtyQueue && this.riskSet == riskSet && this.base == base
      ensures this.hfThresholdExecute == hfThresholdExecute
      ensures this.batchSize == (if batchSize == 0 then 200 else batchSize)
      ensures writes == [] && executions == []
    {
      this.dirtyQueue, this.riskSet, this.base := dirtyQueue, riskSet, base;
      this.hfThresholdExecute := hfThresholdExecute;
      this.batchSize := if batchSize == 0 then 200 else batchSize;
      writes, executions := [], [];
    }

    ghost predicate Valid()
      reads riskSet
    {
      riskSet.cfg.minDebtUsd >= 0.0 && R.Admitted(riskSet.cfg, riskSet.candidates)
    }

    /** While a check or an execution is awaited, users are marked and the risk set changes elsewhere. */
    method Interfere(now: nat)
      requires Valid()
      modifies dirtyQueue, riskSet
      ensures Valid()
      ensures old(dirtyQueue.queue) <= dirtyQueue.queue
      ensures dirtyQueue.totalProcessed == old(dirtyQueue.totalProcessed)
    {
      var n: int := *;
      while n > 0
        invariant Valid()
        invariant old(dirtyQueue.queue) <= dirtyQueue.queue
        invariant dirtyQueue.totalProcessed == old(dirtyQueue.totalProcessed)
      {
        var address: string := *;
        dirtyQueue.MarkDirty(address);
        ActElsewhere(now);
        n := n - 1;
      }
    }

    method ActElsewhere(now: nat)
      requires Valid()
      modifies riskSet
      ensures Valid()
    {
      var op: R.Op := *;
      R.ApplyKeepsAdmitted(riskSet.cfg, riskSet.indexed, riskSet.candidates, op);
      match op
      case OpAddBulk(addresses, at) => riskSet.AddBulk(addresses, at);
      case OpUpdate(address, hf, debt, collateral, at) =>
        var _ := riskSet.UpdateHF(address, hf, debt, collateral, at);
      case OpRemove(address) => riskSet.Remove(address);
      case OpPrune => var _ := riskSet.PruneHealthyUsers();
    }

    /**
     One tick: takes a batch, checks it, writes every result to the risk set, in order, and enters
     `onExecute` for exactly the results at or below the execute threshold with the minimum debt - each
     right after its own write, a user that was queued and that the set holds with the checked values.
     */
    method Tick(answers: string -> Answer, now: nat)
      requires Valid()
      modifies this, dirtyQueue, riskSet
      ensures Valid()
      ensures dirtyQueue.totalProcessed
           == old(dirtyQueue.totalProcessed) + |Q.Batch(old(dirtyQueue.Value()), batchSize)|
      ensures Q.Taken(old(dirtyQueue.Value()), batchSize).queue <= dirtyQueue.queue
      ensures old(writes) <= writes && old(executions) <= executions
      ensures var results := Results(base, Q.Batch(old(dirtyQueue.Value()), batchSize), answers);
        && AreWritten(riskSet.cfg, results, |results|, now, writes[|old(writes)|..])
        && AreExecuted(Kept(|results|, DueAt(riskSet.cfg, hfThresholdExecute, results)), results, |old(writes)|,
                       writes[|old(writes)|..], executions[|old(executions)|..])
    {
      var batch := dirtyQueue.TakeBatch(batchSize);
      if |batch| == 0 {
        return;
      }
      Interfere(now);
      var results := CheckBatch(base, batch, answers, |batch|);
      VerifyAll(results, now);
    }

    method VerifyAll(results: seq<CheckResult>, now: nat)
      requires Valid()
      modifies this, dirtyQueue, riskSet
      ensures Valid()
      ensures old(dirtyQueue.queue) <= dirtyQueue.queue
      ensures dirtyQueue.totalProcessed == old(dirtyQueue.totalProcessed)
      ensures old(writes) <= writes && old(executions) <= executions
      ensures AreWritten(riskSet.cfg, results, |results|, now, writes[|old(writes)|..])
      ensures AreExecuted(Kept(|results|, DueAt(riskSet.cfg, hfThresholdExecute, results)), results, |old(writes)|,
                          writes[|old(writes)|..], executions[|old(executions)|..])
    {
      ghost var due := DueAt(riskSet.cfg, hfThresholdExecute, results);
      ghost var first, second := |writes|, |executions|;
      for i := 0 to |results|
        invariant Valid()
        invariant old(dirtyQueue.queue) <= dirtyQueue.queue
        invariant dirtyQueue.totalProcessed == old(dirtyQueue.totalProcessed)
        invariant old(writes) <= writes && old(executions) <= executions
        invariant AreWritten(riskSet.cfg, results, i, now, writes[first..])
        invariant AreExecuted(Kept(i, due), results, first, writes[first..], executions[second..])
      {
        Turn(results, i, now, first, second);
      }
    }

    /** One turn of the loop; the logs hold the earlier ones from `first` and `second` on. */
    method Turn(results: seq<CheckResult>, i: nat, now: nat, ghost first: nat, ghost second: nat)
      requires Valid() && i < |results| && first <= |writes| && second <= |executions|
      requires AreWritten(riskSet.cfg, results, i, now, writes[first..])
      requires AreExecuted(Kept(i, DueAt(riskSet.cfg, hfThresholdExecute, results)), results, first, writes[first..],
                           executions[second..])
      modifies this, dirtyQueue, riskSet
      ensures Valid()
      ensures old(dirtyQueue.queue) <= dirtyQueue.queue
      ensures dirtyQueue.totalProcessed == old(dirtyQueue.totalProcessed)
      ensures old(writes) <= writes && old(executions) <= executions
      ensures AreWritten(riskSet.cfg, results, i + 1, now, writes[first..])
      ensures AreExecuted(Kept(i + 1, DueAt(riskSet.cfg, hfThresholdExecute, results)), results, first, writes[first..],
                          executions[second..])
    {
      ghost var due := DueAt(riskSet.cfg, hfThresholdExecute, results);
      ghost var written, executed := writes[first..], executions[second..];
      ghost var w, more := Verify(results[i], now);
      WritesGrow(riskSet.cfg, results, now, written, w);
      TurnExtends(due, results, first, written, w, executed, more);
      SuffixOfAppended(old(writes), first, [w]);
      SuffixOfAppended(old(executions), second, more);
    }

    /** Writes the result to the risk set and, if it is due, enters `onExecute`. */
    method Verify(result: CheckResult, now: nat) returns (ghost w: Write, ghost more: seq<Execution>)
      requires Valid()
      modifies this, dirtyQueue, riskSet
      ensures Valid()
      ensures old(dirtyQueue.queue) <= dirtyQueue.queue
      ensures dirtyQueue.totalProcessed == old(dirtyQueue.totalProcessed)
      ensures writes == old(writes) + [w] && executions == old(executions) + more
      ensures w.before == old(riskSet.candidates) && IsWrite(riskSet.cfg, result, now, w)
      ensures if result.check.healthFactor.Num? && result.check.healthFactor.value <= hfThresholdExecute
          && result.check.debtUsd1e18 >= riskSet.cfg.minDebtUsd.Floor * 1_000_000_000_000_000_000
        then |more| == 1 && IsExecution(result, w.after, |old(writes)| + 1, more[0])
        else more == []
    {
      var c := result.check;
      R.ApplyKeepsAdmitted(riskSet.cfg, riskSet.indexed, riskSet.candidates,
                           R.OpUpdate(result.address, c.healthFactor, c.debtUsd1e18, c.totalCollateralBase, now));
      ghost var before := riskSet.candidates;
      var _ := riskSet.UpdateHF(result.address, c.healthFactor, c.debtUsd1e18, c.totalCollateralBase, now);
      w, more := Write(result.address, before, riskSet.candidates), [];
      writes := writes + [w];
      var shouldExecute := ShouldExecute(riskSet.cfg, hfThresholdExecute, c);
      if shouldExecute {
        ghost var held :=
          if result.address in riskSet.candidates then Some(riskSet.candidates[result.address]) else None;
        more := [Execution(result.address, c.healthFactor, c.debtUsd1e18, held, |writes|)];
        executions := executions + more;
        Interfere(now);
      }
    }
  }
}
