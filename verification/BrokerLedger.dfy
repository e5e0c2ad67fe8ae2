/** The sharded ledger in broker mode (committee_broker.go, pbftInside_moduleBroker.go, blockchain.go), as a step
    system over the supervisor, all shards, and the messages between them. */
module BrokerLedgers {
  import opened Addresses
  import opened Filters
  import opened Transactions
  import opened TxPools
  import opened BrokerCommittees
  import R = RelayLedgers

  type Shard = R.Shard

  function FirstTest(): Tx -> bool {
    t => IsFirst(t)
  }

  function SecondTest(): Tx -> bool {
    t => IsSecond(t)
  }

  function InnerTest(): Tx -> bool {
    t => !IsFirst(t) && !IsSecond(t)
  }

  /** The classification of a committed body by the leader. */
  method Classify(body: seq<Tx>) returns (inner: seq<Tx>, broker1: seq<Tx>, broker2: seq<Tx>)
    ensures inner == All(InnerTest(), body) && broker1 == All(FirstTest(), body) && broker2 == All(SecondTest(), body)
  {
    inner, broker1, broker2 := [], [], [];
    for i := 0 to |body|
      invariant inner == Where(InnerTest(), body, i)
      invariant broker1 == Where(FirstTest(), body, i)
      invariant broker2 == Where(SecondTest(), body, i)
    {
      var tx := body[i];
      var isInnerShardTx := tx.rawTxHash.None?;
      var isBroker1Tx := !isInnerShardTx && tx.sender == tx.originalSender;
      var isBroker2Tx := !isInnerShardTx && tx.recipient == tx.finalRecipient;
      if isBroker2Tx {
        broker2 := broker2 + [tx];
      } else if isBroker1Tx {
        broker1 := broker1 + [tx];
      } else {
        inner := inner + [tx];
      }
    }
  }

  /** The halves a block reports to the supervisor, in the order it looks at them. */
  function Halves(body: seq<Tx>): seq<Tx> {
    All(FirstTest(), body) + All(SecondTest(), body)
  }

  /** The shards, the transactions on their way to them, the block reports on their way to the supervisor, and the
      supervisor; with five histories: what clients injected, what the supervisor sent, what shards committed, the
      first halves for which the second was issued, and the second halves reported committed. */
  datatype Ledger = Ledger(shards: seq<Shard>, net: seq<InjectMsg>, infos: seq<seq<Tx>>, sup: Supervisor,
                           injected: seq<Tx>, issued: seq<Tx>, done: seq<Tx>, confirmed: seq<Tx>, finished: seq<Tx>)

  datatype Step =
    | Inject(t: Tx)       // the supervisor deals with a client's transaction
    | Deliver(i: nat)     // a batch reaches its shard; batches overtake one another
    | Propose(s: nat)
    | Commit(s: nat)      // a block is committed and reported
    | Reported(i: nat)    // a report reaches the supervisor, once

  function ViewAt(c: Config, s: nat): View {
    View(s, map[], c.home)
  }

  function Init(c: Config): Ledger {
    Ledger(seq(c.shardNum, _ => R.Shard(map[], [], None)), [], [], Supervisor(map[], map[], {}, map[], 0), [], [], [],
           [], [])
  }

  predicate Enabled(sys: Ledger, step: Step) {
    match step
    case Inject(t) => !t.relayed && !t.hasBroker && t.rawTxHash.None?
    case Deliver(i) => i < |sys.net| && sys.net[i].dest < |sys.shards|
    case Propose(s) => s < |sys.shards| && sys.shards[s].pending.None?
    case Commit(s) => s < |sys.shards| && sys.shards[s].pending.Some?
    case Reported(i) => i < |sys.infos|
  }

  function Posted(c: Config, t: Tx): InjectMsg {
    InjectMsg(ShardFor(c, t), [t])
  }

  function PostAll(c: Config, txs: seq<Tx>): seq<InjectMsg> {
    seq(|txs|, i requires 0 <= i < |txs| => Posted(c, txs[i]))
  }

  function AwaitedTest(sup: Supervisor): Tx -> bool {
    t => Awaited(sup, t)
  }

  /** A report has reached the supervisor, and the second halves it leads to are sent. */
  function Taken(c: Config, sys: Ledger, i: nat): Ledger
    requires c.brokers != [] && i < |sys.infos|
  {
    var (sup, seconds) := Report(c, sys.sup, sys.infos[i]);
    Ledger(sys.shards, sys.net + PostAll(c, seconds), sys.infos[..i] + sys.infos[i + 1..], sup, sys.injected,
           sys.issued + seconds, sys.done, sys.confirmed + All(AwaitedTest(sys.sup), sys.infos[i]),
           sys.finished + All(SecondTest(), sys.infos[i]))
  }

  function Next(c: Config, sys: Ledger, step: Step): Ledger
    requires c.brokers != [] && Enabled(sys, step)
  {
    match step
    case Inject(t) =>
      var (sup, out) := Deal(c, sys.sup, t);
      sys.(sup := sup, net := sys.net + [Posted(c, out)], injected := sys.injected + [t], issued := sys.issued + [out])
    case Deliver(i) =>
      var m := sys.net[i];
      var sh := sys.shards[m.dest];
      sys.(shards := sys.shards[m.dest := sh.(queue := sh.queue + m.txs)], net := sys.net[..i] + sys.net[i + 1..])
    case Propose(s) =>
      var sh := sys.shards[s];
      var txs := sh.queue[..Least(c.blockSize, |sh.queue|)];
      var root := ExecTxs(ViewAt(c, s), sh.state, txs, |txs|);
      sys.(shards := sys.shards[s := R.Shard(sh.state, sh.queue[|txs|..], Some(R.Proposal(txs, root)))])
    case Commit(s) =>
      var sh := sys.shards[s];
      var p := sh.pending.value;
      sys.(shards := sys.shards[s := R.Shard(p.root, sh.queue, None)],
           infos := sys.infos + [Halves(p.txs)], done := sys.done + p.txs)
    case Reported(i) => Taken(c, sys, i)
  }

  function After(c: Config, sys: Ledger, step: Step): Ledger
    requires c.brokers != []
  {
    if Enabled(sys, step) then Next(c, sys, step) else sys
  }

  function Run(c: Config, steps: seq<Step>, n: nat): Ledger
    requires n <= |steps| && c.brokers != []
  {
    if n == 0 then Init(c) else After(c, Run(c, steps, n - 1), steps[n - 1])
  }

  // ----- Every transaction is of its kind and where it belongs -----

  /** What the supervisor sends: whole transactions within a shard or with a broker, first halves to a broker, and
      second halves from one. */
  predicate Good(c: Config, t: Tx) {
    && !t.relayed
    && (t.rawTxHash.None? ==>
          && t.hasBroker == (c.IsBroker(t.sender) || c.IsBroker(t.recipient))
          && (!t.hasBroker ==> c.home(t.sender) == c.home(t.recipient)))
    && (t.rawTxHash.Some? ==> !t.hasBroker && (IsFirst(t) || IsSecond(t)))
    && (IsFirst(t) ==> !c.IsBroker(t.sender) && c.IsBroker(t.recipient) && !c.IsBroker(t.finalRecipient))
    && (IsSecond(t) ==> c.IsBroker(t.sender) && !c.IsBroker(t.recipient))
  }

  ghost predicate GoodAt(c: Config, s: nat, txs: seq<Tx>) {
    forall i :: 0 <= i < |txs| ==> Good(c, txs[i]) && ShardFor(c, txs[i]) == s
  }

  ghost predicate ShardGood(c: Config, s: nat, sh: Shard) {
    && GoodAt(c, s, sh.queue) && GoodAt(c, s, sh.Proposed())
    && (sh.pending.Some? ==> sh.pending.value.root == ExecTxs(ViewAt(c, s), sh.state, sh.Proposed(), |sh.Proposed()|))
  }

  ghost predicate NetGood(c: Config, net: seq<InjectMsg>) {
    forall i :: 0 <= i < |net| ==> GoodAt(c, net[i].dest, net[i].txs)
  }

  /** The supervisor awaits every first half it has sent, and no second half. */
  predicate Remembered(c: Config, sup: Supervisor, t: Tx)
    requires c.brokers != []
  {
    && (IsFirst(t) ==> && t.txHash in sup.confirm1 && sup.confirm1[t.txHash] in sup.rawMegs
                       && t == FirstOf(c, sup.confirm1[t.txHash], t.txHash))
    && (IsSecond(t) ==> t.txHash !in sup.confirm1)
    && (IsFirst(t) || IsSecond(t) ==> t.txHash < sup.nextHash)
  }

  /** The raw messages are cross-shard transactions between accounts that are no brokers; hashes in the pool are
      used up. */
  ghost predicate SupOk(c: Config, sup: Supervisor) {
    forall h :: h in sup.confirm1 ==>
      && h < sup.nextHash && sup.confirm1[h].rawTxHash.None? && !sup.confirm1[h].relayed && IsCross(c, sup.confirm1[h])
  }

  ghost predicate IssuedOk(c: Config, sup: Supervisor, issued: seq<Tx>)
    requires c.brokers != []
  {
    forall i :: 0 <= i < |issued| ==> Remembered(c, sup, issued[i])
  }

  ghost predicate Placed(c: Config, sys: Ledger)
    requires c.brokers != []
  {
    && |sys.shards| == c.shardNum
    && (forall s :: 0 <= s < |sys.shards| ==> ShardGood(c, s, sys.shards[s]))
    && NetGood(c, sys.net)
    && SupOk(c, sys.sup)
    && IssuedOk(c, sys.sup, sys.issued)
  }

  lemma DealGood(c: Config, sup: Supervisor, t: Tx)
    requires c.Valid() && SupOk(c, sup) && Enabled(Init(c), Inject(t))
    ensures var (sup', out) := Deal(c, sup, t);
            && SupOk(c, sup') && Good(c, out) && Remembered(c, sup', out)
            && (forall x :: Remembered(c, sup, x) ==> Remembered(c, sup', x))
  {
  }

  lemma {:induction false} ConfirmsGood(c: Config, sup: Supervisor, txs: seq<Tx>, n: nat)
    requires c.Valid() && SupOk(c, sup) && n <= |txs|
    ensures var (sup', out) := Confirms(c, sup, txs, n);
            && SupOk(c, sup') && sup'.confirm1 == sup.confirm1 && sup'.rawMegs == sup.rawMegs
            && sup'.nextHash >= sup.nextHash
            && (forall x :: Remembered(c, sup, x) ==> Remembered(c, sup', x))
            && (forall k :: 0 <= k < |out| ==> Good(c, out[k]) && Remembered(c, sup', out[k]) && IsSecond(out[k])
                                               && sup.nextHash <= out[k].txHash)
  {
    if n > 0 {
      ConfirmsGood(c, sup, txs, n - 1);
      ConfirmGood(c, Confirms(c, sup, txs, n - 1).0, txs[n - 1]);
    }
  }

  lemma ConfirmGood(c: Config, sup: Supervisor, t: Tx)
    requires c.Valid() && SupOk(c, sup)
    ensures var (sup', out) := Confirm(c, sup, t);
            && SupOk(c, sup') && sup'.confirm1 == sup.confirm1 && sup'.rawMegs == sup.rawMegs
            && sup'.nextHash >= sup.nextHash
            && (forall x :: Remembered(c, sup, x) ==> Remembered(c, sup', x))
            && (forall k :: 0 <= k < |out| ==> Good(c, out[k]) && Remembered(c, sup', out[k]) && IsSecond(out[k])
                                               && sup.nextHash <= out[k].txHash)
  {
  }

  lemma ReportGood(c: Config, sup: Supervisor, txs: seq<Tx>)
    requires c.Valid() && SupOk(c, sup)
    ensures var (sup', out) := Report(c, sup, txs);
            && SupOk(c, sup') && out == Confirms(c, sup, txs, |txs|).1
            && (forall x :: Remembered(c, sup, x) ==> Remembered(c, sup', x))
            && (forall k :: 0 <= k < |out| ==> Good(c, out[k]) && Remembered(c, sup', out[k]))
  {
    ConfirmsGood(c, sup, txs, |txs|);
    var s, s' := Confirms(c, sup, txs, |txs|).0, Report(c, sup, txs).0;
    assert forall x :: Remembered(c, s, x) ==> Remembered(c, s', x);
  }

  lemma TakenPlaced(c: Config, sys: Ledger, i: nat)
    requires c.Valid() && Placed(c, sys) && i < |sys.infos|
    ensures Placed(c, Taken(c, sys, i))
  {
    ReportGood(c, sys.sup, sys.infos[i]);
  }

  lemma NextPlaced(c: Config, sys: Ledger, step: Step)
    requires c.Valid() && Placed(c, sys) && Enabled(sys, step)
    ensures Placed(c, Next(c, sys, step))
  {
    match step
    case Inject(t) => DealGood(c, sys.sup, t);
    case Deliver(i) => DeliverPlaced(c, sys, i);
    case Propose(s) => ShardPlaced(c, sys, step, s);
    case Commit(s) => ShardPlaced(c, sys, step, s);
    case Reported(i) => TakenPlaced(c, sys, i);
  }

  lemma DeliverPlaced(c: Config, sys: Ledger, i: nat)
    requires c.Valid() && Placed(c, sys) && Enabled(sys, Deliver(i))
    ensures Placed(c, Next(c, sys, Deliver(i)))
  {
    assert GoodAt(c, sys.net[i].dest, sys.net[i].txs);
    assert ShardGood(c, sys.net[i].dest, sys.shards[sys.net[i].dest]);
  }

  lemma ShardPlaced(c: Config, sys: Ledger, step: Step, s: nat)
    requires c.Valid() && Placed(c, sys) && Enabled(sys, step) && (step == Propose(s) || step == Commit(s))
    ensures Placed(c, Next(c, sys, step))
  {
    assert ShardGood(c, s, sys.shards[s]);
  }

  lemma {:induction false} RunPlaced(c: Config, steps: seq<Step>, n: nat)
    requires c.Valid() && n <= |steps|
    ensures Placed(c, Run(c, steps, n))
  {
    if n > 0 {
      RunPlaced(c, steps, n - 1);
      if Enabled(Run(c, steps, n - 1), steps[n - 1]) {
        NextPlaced(c, Run(c, steps, n - 1), steps[n - 1]);
      }
    }
  }

  // ----- Queues are served in order -----

  /** A block takes the oldest queued transactions, as many as fit. */
  lemma ProposeTakesOldest(c: Config, sys: Ledger, s: nat)
    requires c.brokers != [] && Enabled(sys, Propose(s))
    ensures var next := Next(c, sys, Propose(s));
            && |next.shards| == |sys.shards|
            && next.shards[s].Proposed() + next.shards[s].queue == sys.shards[s].queue
            && |next.shards[s].Proposed()| <= c.blockSize
            && (|next.shards[s].Proposed()| == c.blockSize || next.shards[s].queue == [])
  {
  }

  /** What a step brings to the queue of shard s, and what it packs into a block of the shard. */
  function Brought(sys: Ledger, step: Step, s: nat): seq<Tx> {
    if step.Deliver? && Enabled(sys, step) && sys.net[step.i].dest == s then sys.net[step.i].txs else []
  }

  function Packed(c: Config, sys: Ledger, step: Step, s: nat): seq<Tx>
    requires c.brokers != []
  {
    if step == Propose(s) && Enabled(sys, step) then Next(c, sys, step).shards[s].Proposed() else []
  }

  /** The same of the first n steps of a run, in their order. */
  function AllBrought(c: Config, steps: seq<Step>, n: nat, s: nat): seq<Tx>
    requires c.brokers != [] && n <= |steps|
  {
    if n == 0 then [] else AllBrought(c, steps, n - 1, s) + Brought(Run(c, steps, n - 1), steps[n - 1], s)
  }

  function AllPacked(c: Config, steps: seq<Step>, n: nat, s: nat): seq<Tx>
    requires c.brokers != [] && n <= |steps|
  {
    if n == 0 then [] else AllPacked(c, steps, n - 1, s) + Packed(c, Run(c, steps, n - 1), steps[n - 1], s)
  }

  lemma StepInOrder(c: Config, sys: Ledger, step: Step, s: nat)
    requires c.brokers != [] && Enabled(sys, step) && s < |sys.shards|
    ensures var next := Next(c, sys, step);
            && |next.shards| == |sys.shards|
            && sys.shards[s].queue + Brought(sys, step, s) == Packed(c, sys, step, s) + next.shards[s].queue
  {
  }

  /** In every run each shard packs into its blocks what has reached its queue, in the order in which it came. */
  lemma {:induction false} FirstInFirstOut(c: Config, steps: seq<Step>, n: nat, s: nat)
    requires c.brokers != [] && n <= |steps| && s < c.shardNum
    ensures |Run(c, steps, n).shards| == c.shardNum
    ensures AllBrought(c, steps, n, s) == AllPacked(c, steps, n, s) + Run(c, steps, n).shards[s].queue
  {
    if n > 0 {
      FirstInFirstOut(c, steps, n - 1, s);
      var sys, step := Run(c, steps, n - 1), steps[n - 1];
      if Enabled(sys, step) {
        StepInOrder(c, sys, step, s);
        R.Regrouped(AllPacked(c, steps, n - 1, s), sys.shards[s].queue, Brought(sys, step, s), Packed(c, sys, step, s),
                    Run(c, steps, n).shards[s].queue);
      }
    }
  }
}
