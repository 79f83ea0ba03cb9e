/** The fee bumps between replacements (txBroadcaster.ts). */
module FeeLadder {
  import opened Arithmetic

  function Bump(fee: nat, percent: nat): nat {
    fee * (100 + percent) / 100
  }

  /** The fee after `k` bumps. */
  function Ladder(fee: nat, percent: nat, k: nat): nat {
    if k == 0 then fee else Bump(Ladder(fee, percent, k - 1), percent)
  }

  /** A bump never lowers a fee, raises it exactly when the percentage is worth a unit, and keeps strict order. */
  lemma BumpRises(f: nat, g: nat, percent: nat)
    ensures Bump(f, percent) >= f
    ensures Bump(f, percent) > f <==> f * percent >= 100
    ensures f < g <==> Bump(f, percent) < Bump(g, percent)
  {
    FloorBounds(f * (100 + percent), 100);
    FloorBounds(g * (100 + percent), 100);
    MulNonNegative(f, percent);
    if f < g {
      MulMono(f + 1, g, 100 + percent);
    } else {
      MulMono(g, f, 100 + percent);
    }
  }

  /** Along the ladder fees never fall, and two ladders keep their order: priority <= max fee holds at
      every rung exactly when it holds for the starting fees. */
  lemma {:induction false} LadderKeepsFeeValidity(priority: nat, maxFee: nat, percent: nat, k: nat)
    ensures Ladder(priority, percent, k) >= priority
    ensures priority <= maxFee <==> Ladder(priority, percent, k) <= Ladder(maxFee, percent, k)
  {
    if k > 0 {
      LadderKeepsFeeValidity(priority, maxFee, percent, k - 1);
      BumpRises(Ladder(maxFee, percent, k - 1), Ladder(priority, percent, k - 1), percent);
      BumpRises(Ladder(priority, percent, k - 1), Ladder(maxFee, percent, k - 1), percent);
    }
  }

  /** From 5 wei on, 20% bumps climb strictly: no two rungs are the same transaction. */
  lemma {:induction false} LadderClimbs(fee: nat, i: nat, j: nat)
    requires fee >= 5 && i < j
    ensures Ladder(fee, 20, i) < Ladder(fee, 20, j)
    decreases j
  {
    LadderKeepsFeeValidity(fee, fee, 20, j - 1);
    BumpRises(Ladder(fee, 20, j - 1), 0, 20);
    if i < j - 1 {
      LadderClimbs(fee, i, j - 1);
    }
  }

  function Pow(b: nat, k: nat): (r: nat)
    ensures b >= 1 ==> r >= 1
  {
    if k == 0 then 1 else b * Pow(b, k - 1)
  }

  /** After k bumps of 20% a fee f lies between f(6/5)^k - 4((6/5)^k - 1) and f(6/5)^k; times 5^k. */
  lemma {:induction false} LadderBounds(fee: nat, k: nat)
    ensures Pow(5, k) * Ladder(fee, 20, k) <= Pow(6, k) * fee
    ensures Pow(5, k) * Ladder(fee, 20, k) >= Pow(6, k) * fee - 4 * (Pow(6, k) - Pow(5, k))
  {
    if k == 0 {
      assert Pow(5, 0) == 1 && Pow(6, 0) == 1;
    } else {
      LadderBounds(fee, k - 1);
      BumpBy20(Ladder(fee, 20, k - 1));
      RungStep(Pow(5, k - 1), Pow(6, k - 1), Ladder(fee, 20, k - 1), Ladder(fee, 20, k), fee);
      Regroup(5, Pow(5, k - 1), Ladder(fee, 20, k));
      Regroup(6, Pow(6, k - 1), fee);
    }
  }

  lemma BumpBy20(prev: nat)
    ensures 5 * Bump(prev, 20) <= 6 * prev <= 5 * Bump(prev, 20) + 4
  {
  }

  lemma Regroup(a: nat, b: nat, c: nat)
    ensures a * b * c == a * (b * c)
  {
  }

  lemma RungStep(p5: nat, p6: nat, prev: nat, next: nat, fee: nat)
    requires 5 * next <= 6 * prev <= 5 * next + 4
    requires p6 * fee - 4 * (p6 - p5) <= p5 * prev <= p6 * fee
    ensures 6 * (p6 * fee) - 4 * (6 * p6 - 5 * p5) <= 5 * (p5 * next) <= 6 * (p6 * fee)
  {
    MulMono(5 * next, 6 * prev, p5);
    MulMono(6 * prev, 5 * next + 4, p5);
    Regroup(5, next, p5);
    Regroup(6, prev, p5);
    assert (5 * next + 4) * p5 == 5 * next * p5 + 4 * p5;
  }
}
