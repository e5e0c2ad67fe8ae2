/** The commit phase of a relay-mode leader (consensus_shard/pbft_all/pbftInside_module.go) and the sending of
    relay messages (toolFuncs.go). */
module RelayNodes {
  import opened Addresses
  import opened Transactions
  import opened TxPools
  import opened Chains

  /** A relay message to the leader of a shard. */
  datatype RelayMsg = RelayMsg(dest: nat, txs: seq<Tx>)

  /** The shard a transaction has to be executed on next. */
  function Route(pm: PartitionMap, home: Placement, t: Tx): nat {
    OwnerOf(pm, home, if t.relayed then t.recipient else t.sender)
  }

  ghost predicate AllRouted(v: View, txs: seq<Tx>) {
    forall i :: 0 <= i < |txs| ==> Route(v.pm, v.home, txs[i]) == v.self
  }

  /** What a committed body relays to shard d, after its first n transactions. */
  function RelayedTo(v: View, txs: seq<Tx>, n: nat, d: nat): seq<Tx>
    requires n <= |txs|
  {
    if n == 0 then []
    else
      RelayedTo(v, txs, n - 1, d)
      + (if d != v.self && OwnerOf(v.pm, v.home, txs[n - 1].recipient) == d then [txs[n - 1].(relayed := true)] else [])
  }

  /** The message to shard d; none to the sending shard itself. */
  function RelayFor(v: View, txs: seq<Tx>, d: nat): seq<RelayMsg> {
    if d == v.self then [] else [RelayMsg(d, RelayedTo(v, txs, |txs|, d))]
  }

  /** The relay messages to the first n shards. */
  function Outgoing(v: View, txs: seq<Tx>, n: nat): seq<RelayMsg> {
    if n == 0 then [] else Outgoing(v, txs, n - 1) + RelayFor(v, txs, n - 1)
  }

  /** Put every transaction of a committed body whose recipient is elsewhere into the relay pool. The source
      panics on a transaction that does not belong here, which happens exactly when one is not routed here. */
  method FillRelayPool(bc: BlockChain, body: seq<Tx>) returns (ok: bool)
    modifies bc.txpool`relayPool
    ensures ok <==> AllRouted(bc.GetView(), body)
    ensures ok ==> forall d :: d != bc.view0.self ==> bc.txpool.RelaysTo(d) == RelayedTo(bc.GetView(), body, |body|, d)
  {
    ghost var v := bc.GetView();
    bc.txpool.ResetRelayPool();
    for i := 0 to |body|
      invariant forall j :: 0 <= j < i ==> Route(v.pm, v.home, body[j]) == v.self
      invariant forall d :: d != v.self ==> bc.txpool.RelaysTo(d) == RelayedTo(v, body, i, d)
    {
      var tx := body[i];
      var ssid, rsid := bc.GetPartitionMap(tx.sender), bc.GetPartitionMap(tx.recipient);
      if !tx.relayed && ssid != bc.view0.self {
        return false;
      }
      if tx.relayed && rsid != bc.view0.self {
        return false;
      }
      if rsid != bc.view0.self {
        bc.txpool.AddRelayTx(tx.(relayed := true), rsid);
      }
    }
    ok := true;
  }

  /** One relay message to every other shard, after which the relay pool is empty. */
  method RelayMsgSend(bc: BlockChain, shardNums: nat, ghost body: seq<Tx>) returns (msgs: seq<RelayMsg>)
    requires forall d :: d != bc.view0.self ==> bc.txpool.RelaysTo(d) == RelayedTo(bc.GetView(), body, |body|, d)
    modifies bc.txpool`relayPool
    ensures msgs == Outgoing(bc.GetView(), body, shardNums)
    ensures forall d :: bc.txpool.RelaysTo(d) == []
  {
    ghost var v := bc.GetView();
    msgs := [];
    for sid := 0 to shardNums
      invariant msgs == Outgoing(v, body, sid)
    {
      if sid != bc.view0.self {
        var txs := bc.txpool.RelaysTo(sid);
        assert txs == RelayedTo(v, body, |body|, sid);
        msgs := msgs + [RelayMsg(sid, txs)];
      }
    }
    bc.txpool.ResetRelayPool();
  }

  /** The commit of a proposed block by a leader whose chain it fits: the chain takes it, the state becomes
      the block's, and the relays go out. */
  method HandleInCommit(bc: BlockChain, shardNums: nat, b: Block) returns (ok: bool, msgs: seq<RelayMsg>)
    requires bc.Valid() && bc.RootKnown() && WellFormed(b) && bc.Fits(b)
    modifies bc`triedb, bc`currentBlock, bc`storage, bc.txpool`relayPool
    ensures bc.Valid() && bc.currentBlock == b
    ensures ok <==> AllRouted(bc.GetView(), b.body)
    ensures ok ==> msgs == Outgoing(bc.GetView(), b.body, shardNums)
  {
    bc.AddBlock(b);
    msgs := [];
    ok := FillRelayPool(bc, b.body);
    if ok {
      msgs := RelayMsgSend(bc, shardNums, b.body);
    }
  }

  /** A relay message is appended to the receiver's queue. */
  method HandleRelay(bc: BlockChain, msg: RelayMsg)
    modifies bc.txpool`txQueue
    ensures bc.txpool.txQueue == old(bc.txpool.txQueue) + msg.txs
  {
    bc.txpool.AddTxs2Pool(msg.txs);
  }
}
