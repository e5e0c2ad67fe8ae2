/** Progress in the broker-mode ledger: every step but an injection, an empty block, or an empty message or report
    leaves less work, so that every run can be continued, without injections, until everything is finished, and then
    agrees with the sequential ledger. */
module BrokerProgress {
  import opened Addresses
  import opened Filters
  import opened Multisets
  import opened Transactions
  import opened TxPools
  import opened BrokerCommittees
  import opened BrokerLedgers
  import opened BrokerConservation
  import opened BrokerTheorems
  import R = RelayLedgers
  import S = RelayConservation

  // ----- The work that is left -----

  /** The first halves of a list, each of which still leads to a second half. */
  function Firsts(txs: seq<Tx>): nat {
    |All(FirstTest(), txs)|
  }

  function ShardWork(sh: Shard): nat {
    4 * |sh.queue| + 5 * Firsts(sh.queue) + 2 * |sh.Proposed()| + 5 * Firsts(sh.Proposed())
    + if sh.pending.Some? then 1 else 0
  }

  function NetWork(txs: seq<Tx>): nat {
    5 * |txs| + 5 * Firsts(txs)
  }

  function InfoWork(txs: seq<Tx>): nat {
    |txs| + 5 * Firsts(txs)
  }

  function ShardWorks(shards: seq<Shard>): seq<int> {
    seq(|shards|, i requires 0 <= i < |shards| => ShardWork(shards[i]))
  }

  function NetWorks(net: seq<InjectMsg>): seq<int> {
    seq(|net|, i requires 0 <= i < |net| => NetWork(net[i].txs))
  }

  function InfoWorks(infos: seq<seq<Tx>>): seq<int> {
    seq(|infos|, i requires 0 <= i < |infos| => InfoWork(infos[i]))
  }

  function Work(sys: Ledger): int {
    Plus(ShardWorks(sys.shards)) + Plus(NetWorks(sys.net)) + Plus(InfoWorks(sys.infos))
  }

  lemma WorkPositive(sys: Ledger)
    ensures Work(sys) >= 0
  {
    PlusPositive(ShardWorks(sys.shards), |sys.shards|);
    PlusPositive(NetWorks(sys.net), |sys.net|);
    PlusPositive(InfoWorks(sys.infos), |sys.infos|);
  }

  lemma ShardChanges(shards: seq<Shard>, s: nat, sh: Shard)
    requires s < |shards|
    ensures Plus(ShardWorks(shards[s := sh])) == Plus(ShardWorks(shards)) + ShardWork(sh) - ShardWork(shards[s])
  {
    var more := ShardWork(sh) - ShardWork(shards[s]);
    PlusBumped(ShardWorks(shards), ShardWorks(shards[s := sh]), |shards|, s, more, s, 0);
  }

  /** Packing a block that is not empty. */
  lemma ProposeWorks(c: Config, sys: Ledger, s: nat)
    requires c.brokers != [] && Enabled(sys, Propose(s)) && c.blockSize > 0 && sys.shards[s].queue != []
    ensures Work(Next(c, sys, Propose(s))) < Work(sys)
  {
    var sh, next := sys.shards[s], Next(c, sys, Propose(s)).shards[s];
    assert sh.queue == next.Proposed() + next.queue;
    AllConcat(FirstTest(), next.Proposed(), next.queue);
    assert Firsts(sh.Proposed()) == 0;
    ShardChanges(sys.shards, s, next);
  }

  lemma Received(sh: Shard, txs: seq<Tx>)
    ensures ShardWork(sh.(queue := sh.queue + txs)) == ShardWork(sh) + 4 * |txs| + 5 * Firsts(txs)
  {
    AllConcat(FirstTest(), sh.queue, txs);
    assert sh.(queue := sh.queue + txs).Proposed() == sh.Proposed();
  }

  lemma NetRemoved(net: seq<InjectMsg>, i: nat)
    requires i < |net|
    ensures Plus(NetWorks(net)) == Plus(NetWorks(net[..i] + net[i + 1..])) + NetWork(net[i].txs)
  {
    PlusRemoved(NetWorks(net), i);
    assert NetWorks(net[..i] + net[i + 1..]) == NetWorks(net)[..i] + NetWorks(net)[i + 1..];
  }

  /** A message that is not empty. */
  lemma DeliverWorks(c: Config, sys: Ledger, i: nat)
    requires c.brokers != [] && Enabled(sys, Deliver(i)) && sys.net[i].txs != []
    ensures Work(Next(c, sys, Deliver(i))) < Work(sys)
  {
    var m := sys.net[i];
    var sh := sys.shards[m.dest];
    Received(sh, m.txs);
    ShardChanges(sys.shards, m.dest, sh.(queue := sh.queue + m.txs));
    NetRemoved(sys.net, i);
  }

  lemma InfoAdded(infos: seq<seq<Tx>>, info: seq<Tx>)
    ensures Plus(InfoWorks(infos + [info])) == Plus(InfoWorks(infos)) + InfoWork(info)
  {
    PlusConcat(InfoWorks(infos), [InfoWork(info)]);
    PlusOne(InfoWork(info));
    assert InfoWorks(infos + [info]) == InfoWorks(infos) + [InfoWork(info)];
  }

  lemma InfoRemoved(infos: seq<seq<Tx>>, i: nat)
    requires i < |infos|
    ensures Plus(InfoWorks(infos)) == Plus(InfoWorks(infos[..i] + infos[i + 1..])) + InfoWork(infos[i])
  {
    PlusRemoved(InfoWorks(infos), i);
    assert InfoWorks(infos[..i] + infos[i + 1..]) == InfoWorks(infos)[..i] + InfoWorks(infos)[i + 1..];
  }

  /** A block's report has no more first halves than the block, and not more than twice its transactions. */
  lemma HalvesWork(body: seq<Tx>)
    ensures InfoWork(Halves(body)) <= 2 * |body| + 5 * Firsts(body)
  {
    FirstsOfHalves(body);
    WhereShort(FirstTest(), body, |body|);
    WhereShort(SecondTest(), body, |body|);
  }

  lemma CommitWorks(c: Config, sys: Ledger, s: nat)
    requires c.brokers != [] && Enabled(sys, Commit(s))
    ensures Work(Next(c, sys, Commit(s))) < Work(sys)
  {
    var sh := sys.shards[s];
    var now := R.Shard(sh.pending.value.root, sh.queue, None);
    HalvesWork(sh.Proposed());
    InfoAdded(sys.infos, Halves(sh.Proposed()));
    assert Firsts(now.Proposed()) == 0;
    ShardChanges(sys.shards, s, now);
  }

  lemma {:induction false} SecondsWork(c: Config, txs: seq<Tx>)
    requires forall i :: 0 <= i < |txs| ==> IsSecond(txs[i])
    ensures Plus(NetWorks(PostAll(c, txs))) == 5 * |txs|
  {
    if txs == [] {
      assert NetWorks(PostAll(c, txs)) == [];
    } else {
      var n := |txs| - 1;
      SecondsWork(c, txs[..n]);
      assert Where(FirstTest(), [txs[n]], 1) == Where(FirstTest(), [txs[n]], 0) + [];
      assert NetWorks(PostAll(c, txs)) == NetWorks(PostAll(c, txs[..n])) + [5];
      PlusConcat(NetWorks(PostAll(c, txs[..n])), [5]);
      PlusOne(5);
    }
  }

  /** A report that is not empty: each of its first halves is followed by one second half. */
  lemma ReportWorks(c: Config, sys: Ledger, i: nat)
    requires c.Valid() && Placed(c, sys) && InfosKnown(sys.infos, sys.issued)
    requires Enabled(sys, Reported(i)) && sys.infos[i] != []
    ensures Work(Next(c, sys, Reported(i))) < Work(sys)
  {
    var info := sys.infos[i];
    var seconds := Report(c, sys.sup, info).1;
    AwaitsFirsts(c, sys.sup, sys.issued, info);
    ConfirmsPairs(c, sys.sup, info, |info|);
    assert |seconds| == Firsts(info);
    SecondsWork(c, seconds);
    PlusConcat(NetWorks(sys.net), NetWorks(PostAll(c, seconds)));
    assert NetWorks(sys.net + PostAll(c, seconds)) == NetWorks(sys.net) + NetWorks(PostAll(c, seconds));
    InfoRemoved(sys.infos, i);
  }

  // ----- Finishing -----

  /** A step that gets on with what is there. */
  predicate Effective(sys: Ledger, step: Step) {
    match step
    case Inject(_) => false
    case Deliver(i) => i < |sys.net| && sys.net[i].txs != []
    case Propose(s) => s < |sys.shards| && sys.shards[s].queue != []
    case Commit(_) => true
    case Reported(i) => i < |sys.infos| && sys.infos[i] != []
  }

  /** Each such step leaves less work, so that there are only so many of them between injections. */
  lemma StepWorks(c: Config, sys: Ledger, step: Step)
    requires c.Valid() && c.blockSize > 0 && Placed(c, sys) && InfosKnown(sys.infos, sys.issued)
    requires Enabled(sys, step) && Effective(sys, step)
    ensures Work(Next(c, sys, step)) < Work(sys) && Next(c, sys, step).injected == sys.injected
  {
    match step
    case Deliver(i) => DeliverWorks(c, sys, i);
    case Propose(s) => ProposeWorks(c, sys, s);
    case Commit(s) => CommitWorks(c, sys, s);
    case Reported(i) => ReportWorks(c, sys, i);
  }

  /** As long as something is left there is such a step. */
  lemma NeverStuck(c: Config, sys: Ledger) returns (step: Step)
    requires c.Valid() && Placed(c, sys) && !Finished(sys)
    ensures Enabled(sys, step) && Effective(sys, step)
  {
    if s: nat :| s < |sys.shards| && sys.shards[s].pending.Some? {
      step := Commit(s);
    } else if s: nat :| s < |sys.shards| && sys.shards[s].queue != [] {
      step := Propose(s);
    } else if i: nat :| i < |sys.infos| && sys.infos[i] != [] {
      step := Reported(i);
    } else {
      var i: nat :| i < |sys.net| && sys.net[i].txs != [];
      assert GoodAt(c, sys.net[i].dest, sys.net[i].txs) && ShardFor(c, sys.net[i].txs[0]) == sys.net[i].dest;
      step := Deliver(i);
    }
  }

  lemma {:induction false} RunPrefix(c: Config, x: seq<Step>, y: seq<Step>, n: nat)
    requires c.brokers != [] && n <= |x| && x <= y
    ensures Run(c, y, n) == Run(c, x, n)
  {
    if n > 0 {
      RunPrefix(c, x, y, n - 1);
    }
  }

  lemma OneStepMore(c: Config, steps: seq<Step>, step: Step)
    requires c.brokers != [] && Enabled(Run(c, steps, |steps|), step)
    ensures Run(c, steps + [step], |steps| + 1) == Next(c, Run(c, steps, |steps|), step)
  {
    RunPrefix(c, steps, steps + [step], |steps|);
  }

  ghost predicate NoInjections(steps: seq<Step>) {
    forall i :: 0 <= i < |steps| ==> !steps[i].Inject?
  }

  /** The state after a whole run. */
  function End(c: Config, steps: seq<Step>): Ledger
    requires c.brokers != []
  {
    Run(c, steps, |steps|)
  }

  lemma Nearer(c: Config, steps: seq<Step>) returns (step: Step)
    requires c.Valid() && c.blockSize > 0 && !Finished(End(c, steps))
    ensures !step.Inject? && End(c, steps + [step]).injected == End(c, steps).injected
    ensures 0 <= Work(End(c, steps + [step])) < Work(End(c, steps))
  {
    RunPlaced(c, steps, |steps|);
    RunReports(c, steps, |steps|);
    step := NeverStuck(c, End(c, steps));
    StepWorks(c, End(c, steps), step);
    OneStepMore(c, steps, step);
    WorkPositive(End(c, steps + [step]));
  }

  lemma Longer(steps: seq<Step>, step: Step, rest: seq<Step>)
    requires !step.Inject? && NoInjections(rest)
    ensures steps + ([step] + rest) == steps + [step] + rest && NoInjections([step] + rest)
  {
  }

  /** From the state after any run, blocks, deliveries and reports alone lead to a state in which every second half that
      is due has been issued and committed, and nothing is left. */
  lemma EveryRunFinishes(c: Config, steps: seq<Step>) returns (more: seq<Step>)
    requires c.Valid() && c.blockSize > 0
    ensures NoInjections(more) && Finished(End(c, steps + more))
    ensures End(c, steps + more).injected == End(c, steps).injected
    decreases Work(End(c, steps))
  {
    if Finished(End(c, steps)) {
      more := [];
      assert steps + [] == steps;
    } else {
      var step := Nearer(c, steps);
      var rest := EveryRunFinishes(c, steps + [step]);
      more := [step] + rest;
      Longer(steps, step, rest);
    }
  }

  /** So every funded run comes, without further injections, to a state in which each account that is no broker has at
      its shard what running every injected transaction in sequence gives. */
  lemma EveryRunAgrees(c: Config, steps: seq<Step>, order: seq<Tx>) returns (more: seq<Step>)
    requires c.Valid() && c.blockSize > 0 && Funded(End(c, steps).injected)
    requires multiset(order) == multiset(End(c, steps).injected)
    ensures NoInjections(more)
    ensures var sys := End(c, steps + more);
            forall a :: !c.IsBroker(a) ==>
              && c.home(a) < |sys.shards|
              && Balance(sys.shards[c.home(a)].state, a) == S.LedgerBalance(S.Sequential(order, |order|), a)
  {
    more := EveryRunFinishes(c, steps);
    forall a | !c.IsBroker(a) {
      FinishedEqualsSequential(c, steps + more, |steps + more|, order, a);
    }
  }
}
