/** The queue of users to verify (dirtyQueue.ts): an insertion-ordered set taken from in batches. */
module DirtyQueue {
  import opened Ordered
  import opened Arithmetic

  datatype State = State(queue: seq<string>, totalMarked: nat, totalProcessed: nat)

  const EMPTY_QUEUE := State([], 0, 0)

  function Marked(s: State, address: string): State {
    if address in s.queue then s else State(s.queue + [address], s.totalMarked + 1, s.totalProcessed)
  }

  function BatchSize(s: State, max: int): nat {
    if max < 0 then 0 else if max < |s.queue| then max else |s.queue|
  }

  function Batch(s: State, max: int): seq<string> {
    s.queue[..BatchSize(s, max)]
  }

  function Taken(s: State, max: int): State {
    State(s.queue[BatchSize(s, max)..], s.totalMarked, s.totalProcessed + BatchSize(s, max))
  }

  class DirtyQueue {
    var queue: seq<string>
    var totalMarked: nat
    var totalProcessed: nat

    constructor ()
      ensures Value() == EMPTY_QUEUE
    {
      queue, totalMarked, totalProcessed := [], 0, 0;
    }

    ghost function Value(): State
      reads this
    {
      State(queue, totalMarked, totalProcessed)
    }

    method MarkDirty(address: string)
      modifies this
      ensures Value() == Marked(old(Value()), address)
    {
      if address !in queue {
        queue := queue + [address];
        totalMarked := totalMarked + 1;
      }
    }

    /** Takes up to `max` users in insertion order, deleting each while iterating. */
    method TakeBatch(max: int) returns (batch: seq<string>)
      modifies this
      ensures batch == Batch(old(Value()), max)
      ensures Value() == Taken(old(Value()), max)
    {
      batch := [];
      var i := 0;
      while i < max
        invariant 0 <= i && i <= if max < 0 then 0 else max
        invariant i <= |old(queue)| && batch == old(queue)[..i] && queue == old(queue)[i..]
        invariant totalMarked == old(totalMarked) && totalProcessed == old(totalProcessed)
      {
        if |queue| == 0 {
          break;
        }
        batch := batch + [queue[0]];
        queue := queue[1..];
        i := i + 1;
      }
      totalProcessed := totalProcessed + |batch|;
    }

    method Clear()
      modifies this
      ensures Value() == old(Value()).(queue := [])
    {
      queue := [];
    }
  }

  // ----- Whole runs, without `clear` -----

  datatype Op = OpMark(address: string) | OpTake(max: int)

  ghost function Run(s: State, ops: seq<Op>): State {
    if ops == [] then s
    else
      var t := Run(s, ops[..|ops| - 1]);
      match ops[|ops| - 1]
      case OpMark(address) => Marked(t, address)
      case OpTake(max) => Taken(t, max)
  }

  /** The marks that were accepted, in order. */
  ghost function Accepted(s: State, ops: seq<Op>): seq<string> {
    if ops == [] then []
    else
      var init, last := ops[..|ops| - 1], ops[|ops| - 1];
      if last.OpMark? && last.address !in Run(s, init).queue then Accepted(s, init) + [last.address]
      else Accepted(s, init)
  }

  /** All batches taken, concatenated. */
  ghost function Delivered(s: State, ops: seq<Op>): seq<string> {
    if ops == [] then []
    else
      var init, last := ops[..|ops| - 1], ops[|ops| - 1];
      if last.OpTake? then Delivered(s, init) + Batch(Run(s, init), last.max) else Delivered(s, init)
  }

  lemma MarkKeepsOrder(accepted: seq<string>, delivered: seq<string>, s: State, address: string)
    requires accepted == delivered + s.queue && Distinct(s.queue)
    ensures (if address !in s.queue then accepted + [address] else accepted) == delivered + Marked(s, address).queue
    ensures Distinct(Marked(s, address).queue)
  {
  }

  lemma TakeKeepsOrder(accepted: seq<string>, delivered: seq<string>, s: State, max: int)
    requires accepted == delivered + s.queue && Distinct(s.queue)
    ensures accepted == (delivered + Batch(s, max)) + Taken(s, max).queue
    ensures Distinct(Taken(s, max).queue)
  {
  }

  /**
   The queue refines a FIFO without duplicates: what was accepted is, in order, what was delivered
   followed by what is still queued, and the statistics count both.
   */
  lemma {:induction false} FirstMarkedFirstTaken(ops: seq<Op>)
    ensures Accepted(EMPTY_QUEUE, ops) == Delivered(EMPTY_QUEUE, ops) + Run(EMPTY_QUEUE, ops).queue
    ensures Distinct(Run(EMPTY_QUEUE, ops).queue)
    ensures Run(EMPTY_QUEUE, ops).totalMarked == |Accepted(EMPTY_QUEUE, ops)|
    ensures Run(EMPTY_QUEUE, ops).totalProcessed == |Delivered(EMPTY_QUEUE, ops)|
    ensures var s := Run(EMPTY_QUEUE, ops); s.totalMarked == s.totalProcessed + |s.queue|
  {
    if ops == [] {
    } else {
      var init, op := ops[..|ops| - 1], ops[|ops| - 1];
      var before := Run(EMPTY_QUEUE, init);
      var accepted, delivered := Accepted(EMPTY_QUEUE, init), Delivered(EMPTY_QUEUE, init);
      FirstMarkedFirstTaken(init);
      match op
      case OpMark(address) => MarkKeepsOrder(accepted, delivered, before, address);
      case OpTake(max) => TakeKeepsOrder(accepted, delivered, before, max);
    }
  }

  ghost function Takes(ops: seq<Op>): nat {
    if ops == [] then 0 else Takes(ops[..|ops| - 1]) + if ops[|ops| - 1].OpTake? then 1 else 0
  }

  lemma {:induction false} MovesUpByWholeBatches(s: State, p: nat, size: nat, ops: seq<Op>)
    requires p < |s.queue| && size > 0
    requires forall i :: 0 <= i < |ops| && ops[i].OpTake? ==> ops[i].max == size
    requires size * Takes(ops) <= p
    ensures p - size * Takes(ops) < |Run(s, ops).queue|
    ensures Run(s, ops).queue[p - size * Takes(ops)] == s.queue[p]
  {
    if ops != [] {
      var init := ops[..|ops| - 1];
      assert size * Takes(ops) == size * Takes(init) + if ops[|ops| - 1].OpTake? then size else 0;
      MovesUpByWholeBatches(s, p, size, init);
    }
  }

  /**
   A user at position p leaves with exactly the (⌊p / size⌋ + 1)-th batch, whatever is marked meanwhile,
   in place p mod size of that batch.
   */
  lemma LeavesWithItsBatch(s: State, p: nat, size: nat, ops: seq<Op>)
    requires p < |s.queue| && size > 0
    requires forall i :: 0 <= i < |ops| && ops[i].OpTake? ==> ops[i].max == size
    requires Takes(ops) == p / size
    ensures p % size < |Batch(Run(s, ops), size)| && Batch(Run(s, ops), size)[p % size] == s.queue[p]
  {
    var k, r := p / size, p % size;
    QuotientAndRest(p, size, k, r);
    MovesUpByWholeBatches(s, p, size, ops);
  }

  lemma QuotientAndRest(p: nat, size: nat, k: int, r: int)
    requires size > 0 && k == p / size && r == p % size
    ensures size * k <= p && p - size * k == r && 0 <= r < size
  {
  }
}
