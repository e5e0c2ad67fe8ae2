/** The sharded ledger in relay mode, as a step system over all shards and the relay messages in flight, and
    its agreement with one sequential ledger (query/resultcheck_test.go). */
module RelayLedgers {
  import opened Addresses
  import opened Transactions
  import opened TxPools
  import opened RelayNodes

  /** A run's constants. The partition map does not change in relay mode. */
  datatype Config = Config(shardNum: nat, pm: PartitionMap, home: Placement, blockSize: nat)
  {
    function Owner(a: Address): nat {
      OwnerOf(pm, home, a)
    }

    function At(s: nat): View {
      View(s, pm, home)
    }

    ghost predicate Valid() {
      forall a :: Owner(a) < shardNum
    }
  }

  /** A proposed block: its transactions and the state root it claims. */
  datatype Proposal = Proposal(txs: seq<Tx>, root: Trie)

  datatype Shard = Shard(state: Trie, queue: seq<Tx>, pending: Option<Proposal>)
  {
    function Proposed(): seq<Tx> {
      if pending.Some? then pending.value.txs else []
    }
  }

  /** All shards, the relay messages in flight, and two histories: the transactions clients injected, and
      those whose first half has been committed. */
  datatype System = System(shards: seq<Shard>, net: seq<RelayMsg>, injected: seq<Tx>, started: seq<Tx>)

  datatype Step =
    | Inject(tx: Tx)       // a client's transaction reaches the shard of its sender
    | Propose(s: nat)      // a leader packs and executes a block
    | Commit(s: nat)       // the block is committed and its relays are sent
    | Deliver(i: nat)      // one relay message arrives; messages overtake one another freely

  function Init(c: Config): System {
    System(seq(c.shardNum, _ => Shard(map[], [], None)), [], [], [])
  }

  predicate Enabled(c: Config, sys: System, step: Step) {
    match step
    case Inject(tx) => !tx.relayed && !tx.hasBroker && c.Owner(tx.sender) < |sys.shards|
    case Propose(s) => s < |sys.shards| && sys.shards[s].pending.None?
    case Commit(s) => s < |sys.shards| && sys.shards[s].pending.Some?
    case Deliver(i) => i < |sys.net| && sys.net[i].dest < |sys.shards|
  }

  function Unrelayed(txs: seq<Tx>): seq<Tx> {
    if txs == [] then []
    else Unrelayed(txs[..|txs| - 1]) + (if txs[|txs| - 1].relayed then [] else [txs[|txs| - 1]])
  }

  function Next(c: Config, sys: System, step: Step): System
    requires Enabled(c, sys, step)
  {
    match step
    case Inject(tx) =>
      var s := c.Owner(tx.sender);
      var sh := sys.shards[s];
      sys.(shards := sys.shards[s := sh.(queue := sh.queue + [tx])], injected := sys.injected + [tx])
    case Propose(s) =>
      var sh := sys.shards[s];
      var txs := sh.queue[..Least(c.blockSize, |sh.queue|)];
      sys.(shards := sys.shards[s := Shard(sh.state, sh.queue[|txs|..],
                                           Some(Proposal(txs, ExecTxs(c.At(s), sh.state, txs, |txs|))))])
    case Commit(s) =>
      var sh := sys.shards[s];
      var p := sh.pending.value;
      System(sys.shards[s := Shard(p.root, sh.queue, None)],
             sys.net + Outgoing(c.At(s), p.txs, c.shardNum),
             sys.injected, sys.started + Unrelayed(p.txs))
    case Deliver(i) =>
      var m := sys.net[i];
      var sh := sys.shards[m.dest];
      sys.(shards := sys.shards[m.dest := sh.(queue := sh.queue + m.txs)], net := sys.net[..i] + sys.net[i + 1..])
  }

  /** The system after the first n steps; a step that is not enabled changes nothing. */
  function Run(c: Config, steps: seq<Step>, n: nat): System
    requires n <= |steps|
  {
    if n == 0 then Init(c)
    else
      var sys := Run(c, steps, n - 1);
      if Enabled(c, sys, steps[n - 1]) then Next(c, sys, steps[n - 1]) else sys
  }

  // ----- Routing -----

  /** Every transaction of the list belongs on the shard, and none goes through a broker. */
  ghost predicate RoutedAt(c: Config, s: nat, txs: seq<Tx>) {
    forall i :: 0 <= i < |txs| ==> Route(c.pm, c.home, txs[i]) == s && !txs[i].hasBroker
  }

  ghost predicate RelayRouted(c: Config, m: RelayMsg) {
    RoutedAt(c, m.dest, m.txs) && m.dest < c.shardNum && forall i :: 0 <= i < |m.txs| ==> m.txs[i].relayed
  }

  ghost predicate NetRouted(c: Config, net: seq<RelayMsg>) {
    forall i :: 0 <= i < |net| ==> RelayRouted(c, net[i])
  }

  ghost predicate ShardRouted(c: Config, s: nat, sh: Shard) {
    && RoutedAt(c, s, sh.queue)
    && RoutedAt(c, s, sh.Proposed())
    && (sh.pending.Some? ==> sh.pending.value.root == ExecTxs(c.At(s), sh.state, sh.Proposed(), |sh.Proposed()|))
  }

  /** Queued, proposed and travelling transactions are at, or on the way to, the shard they belong on; and a
      proposed root is what executing the proposal gives. */
  ghost predicate Routed(c: Config, sys: System) {
    && |sys.shards| == c.shardNum
    && (forall s :: 0 <= s < |sys.shards| ==> ShardRouted(c, s, sys.shards[s]))
    && NetRouted(c, sys.net)
  }

  lemma {:induction false} RelayedToRouted(c: Config, s: nat, txs: seq<Tx>, n: nat, d: nat)
    requires n <= |txs| && RoutedAt(c, s, txs) && d < c.shardNum
    ensures RelayRouted(c, RelayMsg(d, RelayedTo(c.At(s), txs, n, d)))
  {
    if n > 0 {
      RelayedToRouted(c, s, txs, n - 1, d);
    }
  }

  lemma NetConcat(c: Config, x: seq<RelayMsg>, y: seq<RelayMsg>)
    requires NetRouted(c, x) && NetRouted(c, y)
    ensures NetRouted(c, x + y)
  {
  }

  lemma {:induction false} OutgoingRouted(c: Config, s: nat, txs: seq<Tx>, n: nat)
    requires RoutedAt(c, s, txs) && n <= c.shardNum
    ensures NetRouted(c, Outgoing(c.At(s), txs, n))
  {
    if n > 0 {
      OutgoingRouted(c, s, txs, n - 1);
      if n - 1 != s {
        RelayedToRouted(c, s, txs, |txs|, n - 1);
      }
      assert NetRouted(c, RelayFor(c.At(s), txs, n - 1));
      NetConcat(c, Outgoing(c.At(s), txs, n - 1), RelayFor(c.At(s), txs, n - 1));
    }
  }

  lemma NextRouted(c: Config, sys: System, step: Step)
    requires Enabled(c, sys, step) && Routed(c, sys)
    ensures Routed(c, Next(c, sys, step))
  {
    match step
    case Inject(tx) =>
    case Propose(s) =>
      assert ShardRouted(c, s, sys.shards[s]);
    case Commit(s) =>
      assert ShardRouted(c, s, sys.shards[s]);
      OutgoingRouted(c, s, sys.shards[s].Proposed(), c.shardNum);
      NetConcat(c, sys.net, Outgoing(c.At(s), sys.shards[s].Proposed(), c.shardNum));
    case Deliver(i) =>
      assert RelayRouted(c, sys.net[i]);
      NetConcat(c, sys.net[..i], sys.net[i + 1..]);
  }

  /** In every run everything is where it belongs. */
  lemma {:induction false} RunRouted(c: Config, steps: seq<Step>, n: nat)
    requires n <= |steps|
    ensures Routed(c, Run(c, steps, n))
  {
    if n > 0 {
      RunRouted(c, steps, n - 1);
      var sys := Run(c, steps, n - 1);
      if Enabled(c, sys, steps[n - 1]) {
        NextRouted(c, sys, steps[n - 1]);
      }
    }
  }

  /** What a leader proposes is routed to its own shard, which is when FillRelayPool does not panic. */
  lemma NeverIncorrectTx(c: Config, steps: seq<Step>, n: nat, s: nat)
    requires n <= |steps| && s < c.shardNum
    ensures Routed(c, Run(c, steps, n)) && AllRouted(c.At(s), Run(c, steps, n).shards[s].Proposed())
  {
    RunRouted(c, steps, n);
    assert ShardRouted(c, s, Run(c, steps, n).shards[s]);
  }

  // ----- Queues are served in order -----

  /** A block takes the oldest queued transactions, as many as fit. */
  lemma ProposeTakesOldest(c: Config, sys: System, s: nat)
    requires Enabled(c, sys, Propose(s))
    ensures var next := Next(c, sys, Propose(s));
            && |next.shards| == |sys.shards|
            && next.shards[s].Proposed() + next.shards[s].queue == sys.shards[s].queue
            && |next.shards[s].Proposed()| <= c.blockSize
            && (|next.shards[s].Proposed()| == c.blockSize || next.shards[s].queue == [])
  {
  }

  /** What a step brings to the queue of shard s, and what it packs into a block of the shard. */
  function Brought(c: Config, sys: System, step: Step, s: nat): seq<Tx> {
    if !Enabled(c, sys, step) then []
    else
      match step
      case Inject(tx) => if c.Owner(tx.sender) == s then [tx] else []
      case Deliver(i) => if sys.net[i].dest == s then sys.net[i].txs else []
      case _ => []
  }

  function Packed(c: Config, sys: System, step: Step, s: nat): seq<Tx> {
    if step == Propose(s) && Enabled(c, sys, step) then Next(c, sys, step).shards[s].Proposed() else []
  }

  /** The same of the first n steps of a run, in their order. */
  function AllBrought(c: Config, steps: seq<Step>, n: nat, s: nat): seq<Tx>
    requires n <= |steps|
  {
    if n == 0 then [] else AllBrought(c, steps, n - 1, s) + Brought(c, Run(c, steps, n - 1), steps[n - 1], s)
  }

  function AllPacked(c: Config, steps: seq<Step>, n: nat, s: nat): seq<Tx>
    requires n <= |steps|
  {
    if n == 0 then [] else AllPacked(c, steps, n - 1, s) + Packed(c, Run(c, steps, n - 1), steps[n - 1], s)
  }

  lemma StepInOrder(c: Config, sys: System, step: Step, s: nat)
    requires Enabled(c, sys, step) && s < |sys.shards|
    ensures var next := Next(c, sys, step);
            && |next.shards| == |sys.shards|
            && sys.shards[s].queue + Brought(c, sys, step, s) == Packed(c, sys, step, s) + next.shards[s].queue
  {
  }

  lemma Regrouped(before: seq<Tx>, queue: seq<Tx>, come: seq<Tx>, gone: seq<Tx>, rest: seq<Tx>)
    requires queue + come == gone + rest
    ensures before + queue + come == before + gone + rest
  {
    assert before + queue + come == before + (queue + come);
    assert before + gone + rest == before + (gone + rest);
  }

  /** In every run each shard packs into its blocks what has reached its queue, in the order in which it came. */
  lemma {:induction false} FirstInFirstOut(c: Config, steps: seq<Step>, n: nat, s: nat)
    requires n <= |steps| && s < c.shardNum
    ensures |Run(c, steps, n).shards| == c.shardNum
    ensures AllBrought(c, steps, n, s) == AllPacked(c, steps, n, s) + Run(c, steps, n).shards[s].queue
  {
    if n > 0 {
      FirstInFirstOut(c, steps, n - 1, s);
      var sys, step := Run(c, steps, n - 1), steps[n - 1];
      if Enabled(c, sys, step) {
        StepInOrder(c, sys, step, s);
        Regrouped(AllPacked(c, steps, n - 1, s), sys.shards[s].queue, Brought(c, sys, step, s), Packed(c, sys, step, s),
                  Run(c, steps, n).shards[s].queue);
      }
    }
  }
}
