/** The transaction pool of core/txpool.go: a queue and the relay pool of the last block. */
module TxPools {
  import opened Transactions

  function Least(a: nat, b: nat): nat {
    if a < b then a else b
  }

  class TxPool {
    var txQueue: seq<Tx>
    var relayPool: map<nat, seq<Tx>>

    constructor ()
      ensures txQueue == [] && relayPool == map[]
    {
      txQueue, relayPool := [], map[];
    }

    method AddTxs2Pool(txs: seq<Tx>)
      modifies this`txQueue
      ensures txQueue == old(txQueue) + txs
    {
      for i := 0 to |txs|
        invariant txQueue == old(txQueue) + txs[..i]
      {
        txQueue := txQueue + [txs[i]];
      }
    }

    /** The oldest transactions leave the queue, in order, at most maxTxs of them. */
    method PackTxs(maxTxs: nat) returns (packed: seq<Tx>)
      modifies this`txQueue
      ensures packed + txQueue == old(txQueue)
      ensures |packed| == Least(maxTxs, |old(txQueue)|)
    {
      var txNum := maxTxs;
      if |txQueue| < txNum {
        txNum := |txQueue|;
      }
      packed := txQueue[..txNum];
      txQueue := txQueue[txNum..];
    }

    /** The transactions waiting to be relayed to a shard. */
    function RelaysTo(shardId: nat): seq<Tx>
      reads this`relayPool
    {
      if shardId in relayPool then relayPool[shardId] else []
    }

    method AddRelayTx(tx: Tx, shardId: nat)
      modifies this`relayPool
      ensures RelaysTo(shardId) == old(RelaysTo(shardId)) + [tx]
      ensures forall s :: s != shardId ==> RelaysTo(s) == old(RelaysTo(s))
    {
      if shardId !in relayPool {
        relayPool := relayPool[shardId := []];
      }
      relayPool := relayPool[shardId := relayPool[shardId] + [tx]];
    }

    method ResetRelayPool()
      modifies this`relayPool
      ensures forall s :: RelaysTo(s) == []
    {
      relayPool := map[];
    }
  }
}
