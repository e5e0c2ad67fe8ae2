/** The transaction queue at a re-partition: which transactions leave a shard with the accounts that leave it,
    in relay mode (accountTransfer_module.go) and in broker mode (accountTransfermod_Broker.go). */
module QueueMigration {
  import opened Addresses
  import opened Filters
  import opened Multisets
  import opened Transactions
  import opened RelayNodes
  import opened TxPools

  /** A re-partition as one shard sees it: its view before, and the new placements. */
  datatype Round = Round(v: View, modified: PartitionMap)
  {
    /** The account is here now and moves to another shard. */
    predicate Leaves(a: Address) {
      a in modified && modified[a] != v.self && v.Owns(a)
    }

    predicate MovesTo(a: Address, i: nat) {
      Leaves(a) && modified[a] == i
    }

    predicate MovesBelow(a: Address, n: nat) {
      Leaves(a) && modified[a] < n
    }

    /** The partition map afterwards. */
    function Pm(): PartitionMap {
      v.pm + modified
    }
  }

  /** All new placements are shards. */
  ghost predicate Placed(modified: PartitionMap, shardNum: nat) {
    forall a :: a in modified ==> modified[a] < shardNum
  }

  // ----- Relay mode -----

  /** The account a queued transaction has to be with: the sender's before its first half, then the recipient's. */
  function Mover(t: Tx): Address {
    if t.relayed then t.recipient else t.sender
  }

  function With(addrSet: set<Address>): Tx -> bool {
    t => Mover(t) in addrSet
  }

  function Without(addrSet: set<Address>): Tx -> bool {
    t => Mover(t) !in addrSet
  }

  /** The transactions a round sends to shard i, and those it sends to no shard below n. */
  function GoesTo(r: Round, i: nat): Tx -> bool {
    t => r.MovesTo(Mover(t), i)
  }

  function Stays(r: Round, n: nat): Tx -> bool {
    t => !r.MovesBelow(Mover(t), n)
  }

  /** The two-pointer compaction for one target: the transactions of the leaving accounts are taken out in
      order and the others close up in order, in the queue itself. */
  method Extract(q: TxPool, addrSet: set<Address>) returns (txSend: seq<Tx>)
    modifies q`txQueue
    ensures txSend == All(With(addrSet), old(q.txQueue))
    ensures q.txQueue == All(Without(addrSet), old(q.txQueue))
  {
    ghost var was := q.txQueue;
    txSend := [];
    var firstPtr := 0;
    for secondPtr := 0 to |q.txQueue|
      invariant firstPtr <= secondPtr && |q.txQueue| == |was|
      invariant q.txQueue[..firstPtr] == Where(Without(addrSet), was, secondPtr)
      invariant txSend == Where(With(addrSet), was, secondPtr)
      invariant forall k :: secondPtr <= k < |was| ==> q.txQueue[k] == was[k]
    {
      var ptx := q.txQueue[secondPtr];
      var condition1 := ptx.sender in addrSet && !ptx.relayed;
      var condition2 := ptx.recipient in addrSet && ptx.relayed;
      if condition1 || condition2 {
        txSend := txSend + [ptx];
      } else {
        q.txQueue := q.txQueue[firstPtr := ptx];
        firstPtr := firstPtr + 1;
      }
    }
    q.txQueue := q.txQueue[..firstPtr];
  }

  /** The accounts of a round that go to shard i. */
  function AddrsTo(r: Round, i: nat): set<Address> {
    set a | a in r.modified && r.MovesTo(a, i)
  }

  lemma ExtractedNext(r: Round, i: nat, txs: seq<Tx>)
    ensures All(With(AddrsTo(r, i)), All(Stays(r, i), txs)) == All(GoesTo(r, i), txs)
    ensures All(Without(AddrsTo(r, i)), All(Stays(r, i), txs)) == All(Stays(r, i + 1), txs)
  {
    WhereTwice(Stays(r, i), With(AddrsTo(r, i)), GoesTo(r, i), txs, |txs|);
    WhereTwice(Stays(r, i), Without(AddrsTo(r, i)), Stays(r, i + 1), txs, |txs|);
  }

  lemma NothingToSelf(r: Round, txs: seq<Tx>)
    ensures All(GoesTo(r, r.v.self), txs) == []
    ensures All(Stays(r, r.v.self + 1), txs) == All(Stays(r, r.v.self), txs)
  {
    WhereNothing(GoesTo(r, r.v.self), txs, |txs|);
    WhereSame(Stays(r, r.v.self), Stays(r, r.v.self + 1), txs, |txs|);
  }

  /** Repeated over all target shards but the own one, the compaction sends every transaction to the shard its
      account moves to and keeps the others, in their order. */
  method SendQueue(q: TxPool, r: Round, shardNums: nat) returns (sent: seq<seq<Tx>>)
    modifies q`txQueue
    ensures q.txQueue == All(Stays(r, shardNums), old(q.txQueue))
    ensures |sent| == shardNums
    ensures forall i :: 0 <= i < shardNums ==> sent[i] == All(GoesTo(r, i), old(q.txQueue))
  {
    ghost var was := q.txQueue;
    WhereEverything(Stays(r, 0), was, |was|);
    sent := [];
    for i := 0 to shardNums
      invariant q.txQueue == All(Stays(r, i), was)
      invariant |sent| == i
      invariant forall j :: 0 <= j < i ==> sent[j] == All(GoesTo(r, j), was)
    {
      if i == r.v.self {
        NothingToSelf(r, was);
        sent := sent + [[]];
      } else {
        ExtractedNext(r, i, was);
        var txSend := Extract(q, AddrsTo(r, i));
        sent := sent + [txSend];
      }
    }
  }

  /** The new placement of an address, 0 when there is none. */
  function LookUp(modified: PartitionMap, a: Address): nat {
    if a in modified then modified[a] else 0
  }

  function BelongsAt(modified: PartitionMap, self: nat): Tx -> bool {
    t => LookUp(modified, Mover(t)) == self
  }

  /** The receiver's filter against transactions that do not belong to it. */
  method FilterReceived(modified: PartitionMap, self: nat, received: seq<Tx>) returns (validTxs: seq<Tx>)
    ensures validTxs == All(BelongsAt(modified, self), received)
  {
    validTxs := [];
    for i := 0 to |received|
      invariant validTxs == Where(BelongsAt(modified, self), received, i)
    {
      var tx := received[i];
      if !tx.relayed && LookUp(modified, tx.sender) != self {
        continue;
      }
      if tx.relayed && LookUp(modified, tx.recipient) != self {
        continue;
      }
      validTxs := validTxs + [tx];
    }
  }

  /** The receiver keeps every copy of a transaction whose account the new map puts on this shard or, if this is
      shard 0, does not name; and it keeps no other. */
  lemma FilterExactly(modified: PartitionMap, self: nat, received: seq<Tx>, x: Tx)
    ensures var a := if x.relayed then x.recipient else x.sender;
            Copies(All(BelongsAt(modified, self), received), x)
            == if (if a in modified then modified[a] == self else self == 0) then Copies(received, x) else 0
  {
    WhereCopies(BelongsAt(modified, self), received, |received|, x);
    assert received[..|received|] == received;
  }

  /** The receiver's filter drops nothing of what a sender of the same round sends. */
  lemma FilterDropsNothing(r: Round, i: nat, txs: seq<Tx>)
    ensures All(BelongsAt(r.modified, i), All(GoesTo(r, i), txs)) == All(GoesTo(r, i), txs)
  {
    WhereTwice(GoesTo(r, i), BelongsAt(r.modified, i), GoesTo(r, i), txs, |txs|);
  }

  /** What is sent to a shard belongs there under the new map, whatever was queued. */
  lemma SentRouted(r: Round, i: nat, txs: seq<Tx>)
    ensures AllRouted(View(i, r.Pm(), r.v.home), All(GoesTo(r, i), txs))
  {
    WherePasses(GoesTo(r, i), txs, |txs|);
  }

  /** What is kept belongs here under the new map, if the whole queue did under the old one. */
  lemma KeptRouted(r: Round, shardNum: nat, txs: seq<Tx>)
    requires AllRouted(r.v, txs) && Placed(r.modified, shardNum)
    ensures AllRouted(View(r.v.self, r.Pm(), r.v.home), All(Stays(r, shardNum), txs))
  {
    WherePasses(Stays(r, shardNum), txs, |txs|);
    var kept := All(Stays(r, shardNum), txs);
    forall k | 0 <= k < |kept|
      ensures Route(r.Pm(), r.v.home, kept[k]) == r.v.self
    {
      var j :| 0 <= j < |txs| && txs[j] == kept[k];
      assert Route(r.v.pm, r.v.home, txs[j]) == r.v.self;
    }
  }

  // ----- A whole round of queues -----

  /** A re-partition of the queues of all shards. */
  datatype Plan = Plan(home: Placement, pm: PartitionMap, modified: PartitionMap, queues: seq<seq<Tx>>)
  {
    function At(t: nat): Round {
      Round(View(t, pm, home), modified)
    }

    /** The copies of x each shard has, keeps, and sends to each shard. */
    function Had(x: Tx): seq<nat> {
      seq(|queues|, t requires 0 <= t < |queues| => Copies(queues[t], x))
    }

    function Kept(x: Tx): seq<nat> {
      seq(|queues|, t requires 0 <= t < |queues| => Copies(All(Stays(At(t), |queues|), queues[t]), x))
    }

    function Flow(x: Tx): seq<seq<nat>> {
      seq(|queues|, t requires 0 <= t < |queues| => Sent(At(t), queues[t], |queues|, x))
    }
  }

  function Copies(txs: seq<Tx>, x: Tx): nat {
    multiset(txs)[x]
  }

  /** The copies of x that go to each of the first n shards. */
  function Sent(r: Round, txs: seq<Tx>, n: nat, x: Tx): (f: seq<nat>)
    ensures |f| == n && forall i :: 0 <= i < n ==> f[i] == Copies(All(GoesTo(r, i), txs), x)
  {
    if n == 0 then [] else Sent(r, txs, n - 1, x) + [Copies(All(GoesTo(r, n - 1), txs), x)]
  }

  lemma SplitNext(r: Round, txs: seq<Tx>, n: nat)
    ensures multiset(All(Stays(r, n), txs)) == multiset(All(Stays(r, n + 1), txs)) + multiset(All(GoesTo(r, n), txs))
  {
    WhereSplit(Stays(r, n + 1), GoesTo(r, n), Stays(r, n), txs, |txs|);
  }

  lemma CopiesStay(r: Round, txs: seq<Tx>, n: nat, x: Tx)
    ensures Copies(All(Stays(r, n), txs), x) == Copies(All(Stays(r, n + 1), txs), x) + Copies(All(GoesTo(r, n), txs), x)
  {
    SplitNext(r, txs, n);
  }

  lemma AllStay(r: Round, txs: seq<Tx>)
    ensures All(Stays(r, 0), txs) == txs
  {
    WhereEverything(Stays(r, 0), txs, |txs|);
    assert txs[..|txs|] == txs;
  }

  /** One queue is split exactly: what stays and what goes to each of the first n shards. */
  lemma {:induction false} QueueSplit(r: Round, txs: seq<Tx>, n: nat, x: Tx)
    ensures Copies(txs, x) == Copies(All(Stays(r, n), txs), x) + Plus(Sent(r, txs, n, x))
  {
    if n == 0 {
      AllStay(r, txs);
    } else {
      QueueSplit(r, txs, n - 1, x);
      CopiesStay(r, txs, n - 1, x);
      var last := Copies(All(GoesTo(r, n - 1), txs), x);
      PlusConcat(Sent(r, txs, n - 1, x), [last]);
      PlusOne(last);
    }
  }

  /** Over all shards a round neither loses nor duplicates a copy of a queued transaction: what they keep and
      what they receive is what they had. */
  lemma RoundConserves(p: Plan, x: Tx)
    ensures var n := |p.queues|;
            && Table(p.Flow(x), n)
            && Plus(p.Kept(x)) + Received(p.Flow(x), n, n, n) == Plus(p.Had(x))
  {
    var n := |p.queues|;
    forall t | 0 <= t < n
      ensures p.Had(x)[t] == p.Kept(x)[t] + Plus(p.Flow(x)[t])
    {
      QueueSplit(p.At(t), p.queues[t], n, x);
    }
    ExchangeConserves(p.Had(x), p.Kept(x), p.Flow(x), n, n);
  }
}
