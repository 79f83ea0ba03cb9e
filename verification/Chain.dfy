/**
 The chain as the broadcaster sees it: transactions some node accepted, and for every consumed nonce
 of the wallet the transaction that consumed it. A nonce is consumed at most once and for good.
 Signing is deterministic, so a transaction stands for its own hash.
 */
module Chain {
  import opened Ordered

  /** The `initiateLiquidation` argument. */
  datatype LiquidationCall = LiquidationCall(
    user: string,
    collateralAsset: string,
    debtAsset: string,
    debtToCover: int,
    oneInchCalldata: string,
    minOut: int,
    payout: string)

  datatype Tx = Tx(call: LiquidationCall, nonce: nat, maxPriorityFeePerGas: nat, maxFeePerGas: nat)

  /** Who used a nonce: a transaction of this wallet that some node accepted, or anything else. */
  datatype Consumer = Own(tx: Tx, success: bool) | Foreign

  datatype ChainState = ChainState(accepted: set<Tx>, consumed: map<nat, Consumer>)

  predicate WellFormed(c: ChainState) {
    forall n :: n in c.consumed && c.consumed[n].Own? ==>
      c.consumed[n].tx.nonce == n && c.consumed[n].tx in c.accepted
  }

  /** `later` is a possible future of `c`. */
  predicate Follows(c: ChainState, later: ChainState) {
    && WellFormed(later)
    && c.accepted <= later.accepted
    && forall n :: n in c.consumed ==> n in later.consumed && later.consumed[n] == c.consumed[n]
  }

  /** A future in which nobody broadcast a new transaction for `user`. */
  predicate OthersOnly(c: ChainState, later: ChainState, user: string) {
    && Follows(c, later)
    && forall t :: t in later.accepted && t.call.user == user ==> t in c.accepted
  }

  ghost predicate Landed(c: ChainState, t: Tx) {
    exists n :: n in c.consumed && c.consumed[n].Own? && c.consumed[n].tx == t
  }

  ghost predicate Succeeded(c: ChainState, t: Tx) {
    exists n :: n in c.consumed && c.consumed[n] == Own(t, true)
  }

  // ----- What a program and the nodes say to each other -----

  /** A transaction offered with one answer per provider, a receipt asked for, or a pause. */
  datatype Exchange =
    | Offered(tx: Tx, accepts: seq<bool>)
    | Asked(tx: Tx, status: Option<bool>)
    | Slept(ms: nat)

  /** The offered transactions, in order. */
  ghost function OfferedTxs(talk: seq<Exchange>): seq<Tx> {
    if talk == [] then []
    else
      var last := talk[|talk| - 1];
      if last.Offered? then OfferedTxs(talk[..|talk| - 1]) + [last.tx] else OfferedTxs(talk[..|talk| - 1])
  }

  /** Those at least one provider accepted. */
  ghost function AcceptedTxs(talk: seq<Exchange>): seq<Tx> {
    if talk == [] then []
    else
      var last := talk[|talk| - 1];
      if last.Offered? && true in last.accepts then AcceptedTxs(talk[..|talk| - 1]) + [last.tx]
      else AcceptedTxs(talk[..|talk| - 1])
  }

  lemma TxsOfAppended(talk: seq<Exchange>, x: Exchange)
    ensures OfferedTxs(talk + [x]) == if x.Offered? then OfferedTxs(talk) + [x.tx] else OfferedTxs(talk)
    ensures AcceptedTxs(talk + [x])
         == if x.Offered? && true in x.accepts then AcceptedTxs(talk) + [x.tx] else AcceptedTxs(talk)
  {
    assert (talk + [x])[..|talk|] == talk;
  }

  /**
   The node behind the RPC providers. Between any two answers the rest of the world may act: blocks
   are mined, other users' transactions are broadcast, time passes.
   */
  class Node {
    var chain: ChainState
    var clock: nat
    /** Everything the calls modelled here said to the node; only the methods that say it extend it. */
    ghost var talk: seq<Exchange>

    constructor ()
      ensures WellFormed(chain) && talk == []
    {
      chain := ChainState({}, map[]);
      clock := 0;
      talk := [];
    }

    method Interfere(user: string)
      modifies this
      requires WellFormed(chain)
      ensures OthersOnly(old(chain), chain, user) && clock >= old(clock)
      ensures talk == old(talk)
    {
      var later: ChainState := *;
      if OthersOnly(chain, later, user) {
        chain := later;
      }
      var ms: int := *;
      if ms > 0 {
        clock := clock + ms;
      }
    }

    /** One answer per provider; any acceptance puts the transaction in the mempool. */
    method BroadcastToAll(tx: Tx, providers: nat) returns (accepts: seq<bool>)
      modifies this
      requires WellFormed(chain)
      ensures |accepts| == providers
      ensures clock == old(clock)
      ensures chain == if true in accepts then old(chain).(accepted := old(chain).accepted + {tx}) else old(chain)
      ensures talk == old(talk) + [Offered(tx, accepts)]
    {
      accepts := [];
      for i := 0 to providers
        invariant |accepts| == i
      {
        var accept: bool := *;
        accepts := accepts + [accept];
      }
      if true in accepts {
        chain := chain.(accepted := chain.accepted + {tx});
      }
      talk := talk + [Offered(tx, accepts)];
    }

    /** A receipt, once there is one, may or may not be reported. */
    method GetReceipt(tx: Tx) returns (status: Option<bool>)
      modifies this`talk
      ensures talk == old(talk) + [Asked(tx, status)]
      ensures status.Some? ==> tx.nonce in chain.consumed && chain.consumed[tx.nonce] == Own(tx, status.value)
    {
      var reported: bool := *;
      status := None;
      if reported && tx.nonce in chain.consumed && chain.consumed[tx.nonce].Own? && chain.consumed[tx.nonce].tx == tx {
        status := Some(chain.consumed[tx.nonce].success);
      }
      talk := talk + [Asked(tx, status)];
    }

    /** `setTimeout`: at least the requested time passes. */
    method Sleep(ms: nat)
      modifies this
      ensures chain == old(chain) && clock >= old(clock) + ms
      ensures talk == old(talk) + [Slept(ms)]
    {
      var late: int := *;
      clock := clock + ms + if late > 0 then late else 0;
      talk := talk + [Slept(ms)];
    }
  }
}
