/** Progress in the relay-mode ledger: every step but an injection or an empty block leaves less work, so that every run
    can be continued, without injections, until it is drained, and then agrees with the sequential ledger. */
module RelayProgress {
  import opened Addresses
  import opened Multisets
  import opened Transactions
  import opened TxPools
  import opened RelayNodes
  import opened RelayLedgers
  import opened RelayConservation

  // ----- The work that is left -----

  /** A transaction is packed, committed, and if its recipient is elsewhere delivered, packed and committed again. */
  function ShardWork(sh: Shard): nat {
    3 * |sh.queue| + 4 * |Unrelayed(sh.queue)| + |sh.Proposed()| + 4 * |Unrelayed(sh.Proposed())|
    + if sh.pending.Some? then 1 else 0
  }

  function ShardWorks(shards: seq<Shard>): seq<int> {
    seq(|shards|, i requires 0 <= i < |shards| => ShardWork(shards[i]))
  }

  function NetWorks(net: seq<RelayMsg>): seq<int> {
    seq(|net|, i requires 0 <= i < |net| => 4 * |net[i].txs|)
  }

  function Work(sys: System): int {
    Plus(ShardWorks(sys.shards)) + Plus(NetWorks(sys.net))
  }

  lemma WorkPositive(sys: System)
    ensures Work(sys) >= 0
  {
    PlusPositive(ShardWorks(sys.shards), |sys.shards|);
    PlusPositive(NetWorks(sys.net), |sys.net|);
  }

  lemma ShardChanges(shards: seq<Shard>, s: nat, sh: Shard)
    requires s < |shards|
    ensures Plus(ShardWorks(shards[s := sh])) == Plus(ShardWorks(shards)) + ShardWork(sh) - ShardWork(shards[s])
  {
    var more := ShardWork(sh) - ShardWork(shards[s]);
    PlusBumped(ShardWorks(shards), ShardWorks(shards[s := sh]), |shards|, s, more, s, 0);
  }

  /** Packing a block that is not empty. */
  lemma ProposeWorks(c: Config, sys: System, s: nat)
    requires Enabled(c, sys, Propose(s)) && c.blockSize > 0 && sys.shards[s].queue != []
    ensures Work(Next(c, sys, Propose(s))) < Work(sys)
  {
    var sh, next := sys.shards[s], Next(c, sys, Propose(s)).shards[s];
    assert sh.queue == next.Proposed() + next.queue;
    UnrelayedConcat(next.Proposed(), next.queue);
    assert Unrelayed(sh.Proposed()) == [];
    ShardChanges(sys.shards, s, next);
  }

  lemma Received(sh: Shard, txs: seq<Tx>)
    requires forall i :: 0 <= i < |txs| ==> txs[i].relayed
    ensures ShardWork(sh.(queue := sh.queue + txs)) == ShardWork(sh) + 3 * |txs|
  {
    UnrelayedNone(txs);
    UnrelayedConcat(sh.queue, txs);
    assert sh.(queue := sh.queue + txs).Proposed() == sh.Proposed();
  }

  lemma NetRemoved(net: seq<RelayMsg>, i: nat)
    requires i < |net|
    ensures Plus(NetWorks(net)) == Plus(NetWorks(net[..i] + net[i + 1..])) + 4 * |net[i].txs|
  {
    PlusRemoved(NetWorks(net), i);
    assert NetWorks(net[..i] + net[i + 1..]) == NetWorks(net)[..i] + NetWorks(net)[i + 1..];
  }

  /** A message that is not empty. */
  lemma DeliverWorks(c: Config, sys: System, i: nat)
    requires Enabled(c, sys, Deliver(i)) && Routed(c, sys) && sys.net[i].txs != []
    ensures Work(Next(c, sys, Deliver(i))) < Work(sys)
  {
    var m := sys.net[i];
    var sh := sys.shards[m.dest];
    assert RelayRouted(c, m);
    Received(sh, m.txs);
    ShardChanges(sys.shards, m.dest, sh.(queue := sh.queue + m.txs));
    NetRemoved(sys.net, i);
  }

  // ----- The relays of a block -----

  /** How many of its first k transactions a block relays to the first n shards. */
  function Relays(v: View, txs: seq<Tx>, k: nat, n: nat): nat
    requires k <= |txs|
  {
    if n == 0 then 0
    else Relays(v, txs, k, n - 1) + if n - 1 == v.self then 0 else |RelayedTo(v, txs, k, n - 1)|
  }

  lemma {:induction false} RelaysNext(v: View, txs: seq<Tx>, k: nat, n: nat)
    requires 0 < k <= |txs|
    ensures var d := OwnerOf(v.pm, v.home, txs[k - 1].recipient);
            Relays(v, txs, k, n) == Relays(v, txs, k - 1, n) + if d < n && d != v.self then 1 else 0
  {
    if n > 0 {
      RelaysNext(v, txs, k, n - 1);
    }
  }

  lemma {:induction false} NoRelays(v: View, txs: seq<Tx>, n: nat)
    ensures Relays(v, txs, 0, n) == 0
  {
    if n > 0 {
      NoRelays(v, txs, n - 1);
    }
  }

  /** Only transactions that are not relayed yet lead to relays. */
  lemma {:induction false} RelaysBound(c: Config, s: nat, txs: seq<Tx>, k: nat, n: nat)
    requires RoutedAt(c, s, txs) && k <= |txs|
    ensures Relays(c.At(s), txs, k, n) <= |Unrelayed(txs[..k])|
  {
    if k == 0 {
      NoRelays(c.At(s), txs, n);
    } else {
      RelaysBound(c, s, txs, k - 1, n);
      RelaysNext(c.At(s), txs, k, n);
      assert txs[..k] == txs[..k - 1] + [txs[k - 1]];
      assert txs[..k][..|txs[..k]| - 1] == txs[..k - 1];
    }
  }

  lemma {:induction false} OutgoingWorks(v: View, txs: seq<Tx>, n: nat)
    ensures Plus(NetWorks(Outgoing(v, txs, n))) == 4 * Relays(v, txs, |txs|, n)
  {
    if n > 0 {
      var before, one := Outgoing(v, txs, n - 1), RelayFor(v, txs, n - 1);
      OutgoingWorks(v, txs, n - 1);
      PlusConcat(NetWorks(before), NetWorks(one));
      assert NetWorks(before + one) == NetWorks(before) + NetWorks(one);
      if n - 1 == v.self {
        assert Plus(NetWorks(one)) == 0;
      } else {
        PlusOne(4 * |RelayedTo(v, txs, |txs|, n - 1)|);
        assert NetWorks(one) == [4 * |RelayedTo(v, txs, |txs|, n - 1)|];
      }
    }
  }

  lemma RelaysAdded(c: Config, s: nat, net: seq<RelayMsg>, txs: seq<Tx>)
    requires RoutedAt(c, s, txs)
    ensures Plus(NetWorks(net + Outgoing(c.At(s), txs, c.shardNum))) <= Plus(NetWorks(net)) + 4 * |Unrelayed(txs)|
  {
    var out := Outgoing(c.At(s), txs, c.shardNum);
    OutgoingWorks(c.At(s), txs, c.shardNum);
    RelaysBound(c, s, txs, |txs|, c.shardNum);
    assert txs[..|txs|] == txs;
    PlusConcat(NetWorks(net), NetWorks(out));
    assert NetWorks(net + out) == NetWorks(net) + NetWorks(out);
  }

  lemma CommitWorks(c: Config, sys: System, s: nat)
    requires Enabled(c, sys, Commit(s)) && Routed(c, sys)
    ensures Work(Next(c, sys, Commit(s))) < Work(sys)
  {
    var sh := sys.shards[s];
    assert ShardRouted(c, s, sh);
    RelaysAdded(c, s, sys.net, sh.Proposed());
    var now := Shard(sh.pending.value.root, sh.queue, None);
    assert Unrelayed(now.Proposed()) == [];
    ShardChanges(sys.shards, s, now);
  }

  // ----- Draining -----

  /** A step that gets on with what is there: no injection, no empty block, no empty message. */
  predicate Effective(sys: System, step: Step) {
    match step
    case Inject(_) => false
    case Propose(s) => s < |sys.shards| && sys.shards[s].queue != []
    case Commit(_) => true
    case Deliver(i) => i < |sys.net| && sys.net[i].txs != []
  }

  /** Each such step leaves less work, so that there are only so many of them between injections. */
  lemma StepWorks(c: Config, sys: System, step: Step)
    requires c.blockSize > 0 && Routed(c, sys) && Enabled(c, sys, step) && Effective(sys, step)
    ensures Work(Next(c, sys, step)) < Work(sys) && Next(c, sys, step).injected == sys.injected
  {
    match step
    case Propose(s) => ProposeWorks(c, sys, s);
    case Commit(s) => CommitWorks(c, sys, s);
    case Deliver(i) => DeliverWorks(c, sys, i);
  }

  /** As long as the system is not drained there is such a step. */
  lemma NeverStuck(c: Config, sys: System) returns (step: Step)
    requires Routed(c, sys) && !Drained(sys)
    ensures Enabled(c, sys, step) && Effective(sys, step)
  {
    if s: nat :| s < |sys.shards| && sys.shards[s].pending.Some? {
      step := Commit(s);
    } else if s: nat :| s < |sys.shards| && sys.shards[s].queue != [] {
      step := Propose(s);
    } else {
      var i: nat :| i < |sys.net| && sys.net[i].txs != [];
      assert RelayRouted(c, sys.net[i]);
      step := Deliver(i);
    }
  }

  lemma {:induction false} RunPrefix(c: Config, x: seq<Step>, y: seq<Step>, n: nat)
    requires n <= |x| && x <= y
    ensures Run(c, y, n) == Run(c, x, n)
  {
    if n > 0 {
      RunPrefix(c, x, y, n - 1);
    }
  }

  lemma OneStepMore(c: Config, steps: seq<Step>, step: Step)
    requires Enabled(c, Run(c, steps, |steps|), step)
    ensures Run(c, steps + [step], |steps| + 1) == Next(c, Run(c, steps, |steps|), step)
  {
    RunPrefix(c, steps, steps + [step], |steps|);
  }

  ghost predicate NoInjections(steps: seq<Step>) {
    forall i :: 0 <= i < |steps| ==> !steps[i].Inject?
  }

  /** The state after a whole run. */
  function End(c: Config, steps: seq<Step>): System {
    Run(c, steps, |steps|)
  }

  lemma Nearer(c: Config, steps: seq<Step>) returns (step: Step)
    requires c.blockSize > 0 && !Drained(End(c, steps))
    ensures !step.Inject? && End(c, steps + [step]).injected == End(c, steps).injected
    ensures 0 <= Work(End(c, steps + [step])) < Work(End(c, steps))
  {
    RunRouted(c, steps, |steps|);
    step := NeverStuck(c, End(c, steps));
    StepWorks(c, End(c, steps), step);
    OneStepMore(c, steps, step);
    WorkPositive(End(c, steps + [step]));
  }

  lemma Longer(steps: seq<Step>, step: Step, rest: seq<Step>)
    requires !step.Inject? && NoInjections(rest)
    ensures steps + ([step] + rest) == steps + [step] + rest && NoInjections([step] + rest)
  {
  }

  /** From the state after any run, blocks and deliveries alone lead to a drained system. */
  lemma EveryRunDrains(c: Config, steps: seq<Step>) returns (more: seq<Step>)
    requires c.blockSize > 0
    ensures NoInjections(more) && Drained(End(c, steps + more))
    ensures End(c, steps + more).injected == End(c, steps).injected
    decreases Work(End(c, steps))
  {
    if Drained(End(c, steps)) {
      more := [];
      assert steps + [] == steps;
    } else {
      var step := Nearer(c, steps);
      var rest := EveryRunDrains(c, steps + [step]);
      more := [step] + rest;
      Longer(steps, step, rest);
    }
  }

  /** So every funded run comes, without further injections, to a state in which reading each account at its owner gives
      what running every injected transaction in sequence gives. */
  lemma EveryRunAgrees(c: Config, steps: seq<Step>, order: seq<Tx>) returns (more: seq<Step>)
    requires c.Valid() && c.blockSize > 0 && Funded(End(c, steps).injected)
    requires multiset(order) == multiset(End(c, steps).injected)
    ensures NoInjections(more)
    ensures var sys := End(c, steps + more);
            forall a :: c.Owner(a) < |sys.shards| && Read(c, sys, a) == LedgerBalance(Sequential(order, |order|), a)
  {
    more := EveryRunDrains(c, steps);
    forall a {
      DrainedEqualsSequential(c, steps + more, |steps + more|, order, a);
    }
  }
}
