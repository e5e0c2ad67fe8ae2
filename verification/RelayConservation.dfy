/** Conservation in the relay-mode ledger: no transaction is lost or duplicated, every account holds what the
    committed first halves and the delivered second halves make of it, and a drained system agrees with the
    sequential ledger. */
module RelayConservation {
  import opened Addresses
  import opened Multisets
  import opened Transactions
  import opened TxPools
  import opened RelayNodes
  import opened RelayLedgers

  // ----- Every injected transaction is started once or still waiting -----

  /** The transactions of a shard whose first half is still to be committed. */
  function Held(sh: Shard): multiset<Tx> {
    multiset(Unrelayed(sh.queue)) + multiset(Unrelayed(sh.Proposed()))
  }

  function AllHeld(shards: seq<Shard>): seq<multiset<Tx>> {
    seq(|shards|, i requires 0 <= i < |shards| => Held(shards[i]))
  }

  function Waiting(shards: seq<Shard>): multiset<Tx> {
    Total(AllHeld(shards), |shards|)
  }

  ghost predicate Accounted(sys: System) {
    multiset(sys.injected) == multiset(sys.started) + Waiting(sys.shards)
  }

  lemma {:induction false} UnrelayedConcat(x: seq<Tx>, y: seq<Tx>)
    ensures Unrelayed(x + y) == Unrelayed(x) + Unrelayed(y)
  {
    if y == [] {
      assert x + y == x;
    } else {
      assert (x + y)[..|x + y| - 1] == x + y[..|y| - 1];
      UnrelayedConcat(x, y[..|y| - 1]);
    }
  }

  lemma {:induction false} UnrelayedNone(txs: seq<Tx>)
    requires forall i :: 0 <= i < |txs| ==> txs[i].relayed
    ensures Unrelayed(txs) == []
  {
    if txs != [] {
      UnrelayedNone(txs[..|txs| - 1]);
    }
  }

  /** Shard s changes to sh: the transactions that leave it are started, those that enter it are injected. */
  lemma AccountedAfter(sys: System, s: nat, sh: Shard, gone: multiset<Tx>, come: multiset<Tx>)
    requires Accounted(sys) && s < |sys.shards|
    requires Held(sh) + gone == Held(sys.shards[s]) + come
    ensures multiset(sys.injected) + come == multiset(sys.started) + gone + Waiting(sys.shards[s := sh])
  {
    Settle(multiset(sys.injected), multiset(sys.started), AllHeld(sys.shards), s, Held(sh), gone, come);
    assert AllHeld(sys.shards[s := sh]) == AllHeld(sys.shards)[s := Held(sh)];
  }

  /** Shard s changes to sh and holds what it held. */
  lemma AccountedSame(sys: System, s: nat, sh: Shard)
    requires Accounted(sys) && s < |sys.shards| && Held(sh) == Held(sys.shards[s])
    ensures multiset(sys.injected) == multiset(sys.started) + Waiting(sys.shards[s := sh])
  {
    SettleSame(multiset(sys.injected), multiset(sys.started), AllHeld(sys.shards), s, Held(sh));
    assert AllHeld(sys.shards[s := sh]) == AllHeld(sys.shards)[s := Held(sh)];
  }

  lemma HeldQueued(sh: Shard, more: seq<Tx>)
    ensures Held(sh.(queue := sh.queue + more)) == Held(sh) + multiset(Unrelayed(more))
  {
    UnrelayedConcat(sh.queue, more);
    assert sh.(queue := sh.queue + more).Proposed() == sh.Proposed();
  }

  /** Packing a block moves transactions from the queue to the proposal. */
  lemma HeldPacked(sh: Shard, p: Proposal, rest: seq<Tx>)
    requires sh.pending.None? && sh.queue == p.txs + rest
    ensures Held(Shard(sh.state, rest, Some(p))) == Held(sh)
  {
    UnrelayedConcat(p.txs, rest);
  }

  lemma InjectAccounted(sys: System, s: nat, tx: Tx)
    requires s < |sys.shards| && !tx.relayed && Accounted(sys)
    ensures var was := sys.shards[s];
            multiset(sys.injected) + multiset{tx}
            == multiset(sys.started) + Waiting(sys.shards[s := was.(queue := was.queue + [tx])])
  {
    var was := sys.shards[s];
    HeldQueued(was, [tx]);
    assert Unrelayed([tx]) == [tx];
    AccountedAfter(sys, s, was.(queue := was.queue + [tx]), multiset{}, multiset{tx});
  }

  lemma ProposeAccounted(sys: System, s: nat, p: Proposal, rest: seq<Tx>)
    requires s < |sys.shards| && sys.shards[s].pending.None? && sys.shards[s].queue == p.txs + rest && Accounted(sys)
    ensures multiset(sys.injected)
         == multiset(sys.started) + Waiting(sys.shards[s := Shard(sys.shards[s].state, rest, Some(p))])
  {
    HeldPacked(sys.shards[s], p, rest);
    AccountedSame(sys, s, Shard(sys.shards[s].state, rest, Some(p)));
  }

  lemma CommitAccounted(sys: System, s: nat)
    requires s < |sys.shards| && sys.shards[s].pending.Some? && Accounted(sys)
    ensures var was := sys.shards[s];
            multiset(sys.injected)
            == multiset(sys.started) + multiset(Unrelayed(was.pending.value.txs))
               + Waiting(sys.shards[s := Shard(was.pending.value.root, was.queue, None)])
  {
    var was := sys.shards[s];
    AccountedAfter(sys, s, Shard(was.pending.value.root, was.queue, None), multiset(Unrelayed(was.Proposed())),
                   multiset{});
  }

  lemma DeliverAccounted(sys: System, s: nat, txs: seq<Tx>)
    requires s < |sys.shards| && Accounted(sys) && forall i :: 0 <= i < |txs| ==> txs[i].relayed
    ensures var was := sys.shards[s];
            multiset(sys.injected) == multiset(sys.started) + Waiting(sys.shards[s := was.(queue := was.queue + txs)])
  {
    var was := sys.shards[s];
    UnrelayedNone(txs);
    HeldQueued(was, txs);
    AccountedSame(sys, s, was.(queue := was.queue + txs));
  }

  lemma NextAccounted(c: Config, sys: System, step: Step)
    requires Enabled(c, sys, step) && Routed(c, sys) && Accounted(sys)
    ensures Accounted(Next(c, sys, step))
  {
    var next := Next(c, sys, step);
    match step
    case Inject(tx) =>
      InjectAccounted(sys, c.Owner(tx.sender), tx);
      assert multiset(next.injected) == multiset(sys.injected) + multiset{tx};
    case Propose(s) =>
      var now := next.shards[s];
      assert sys.shards[s].queue == now.Proposed() + now.queue;
      ProposeAccounted(sys, s, now.pending.value, now.queue);
    case Commit(s) =>
      CommitAccounted(sys, s);
    case Deliver(i) =>
      assert RelayRouted(c, sys.net[i]);
      DeliverAccounted(sys, sys.net[i].dest, sys.net[i].txs);
  }

  // ----- Sums over lists that are routed, unrelayed or sent -----

  lemma {:induction false} SumUnrelayed(txs: seq<Tx>, k: Measure)
    requires k.Out? || k.In? || k.RelayedIn?
    ensures Sum(Unrelayed(txs), k) == if k.RelayedIn? then 0 else Sum(txs, k)
  {
    if txs != [] {
      var rest, t := txs[..|txs| - 1], txs[|txs| - 1];
      SumUnrelayed(rest, k);
      assert txs == rest + [t];
      SumConcat(rest, [t], k);
      SumConcat(Unrelayed(rest), if t.relayed then [] else [t], k);
      assert Sum([t], k) == SumTo([t], 0, k) + Amount(t, k);
    }
  }

  /** Nothing on a shard debits, or credits by relay, an account of another shard. */
  lemma {:induction false} SumElsewhere(c: Config, s: nat, txs: seq<Tx>, n: nat, a: Address)
    requires n <= |txs| && RoutedAt(c, s, txs) && c.Owner(a) != s
    ensures SumTo(txs, n, Out(a)) == 0 && SumTo(txs, n, RelayedIn(a)) == 0
  {
    if n > 0 {
      SumElsewhere(c, s, txs, n - 1, a);
      assert Route(c.pm, c.home, txs[n - 1]) == s;
    }
  }

  lemma {:induction false} SumRelayedTo(c: Config, s: nat, txs: seq<Tx>, n: nat, d: nat, a: Address)
    requires n <= |txs| && RoutedAt(c, s, txs)
    ensures Sum(RelayedTo(c.At(s), txs, n, d), RelayedIn(a))
         == if d == c.Owner(a) && d != s then SumTo(txs, n, In(a)) else 0
  {
    if n > 0 {
      SumRelayedTo(c, s, txs, n - 1, d, a);
      var t := txs[n - 1];
      var last := if d != s && c.Owner(t.recipient) == d then [t.(relayed := true)] else [];
      SumConcat(RelayedTo(c.At(s), txs, n - 1, d), last, RelayedIn(a));
      assert Route(c.pm, c.home, t) == s;
      assert last != [] ==> Sum(last, RelayedIn(a)) == SumTo(last, 0, RelayedIn(a)) + Amount(last[0], RelayedIn(a));
    }
  }

  /** What each message relays to a. */
  function Amounts(net: seq<RelayMsg>, a: Address): seq<nat> {
    seq(|net|, i requires 0 <= i < |net| => Sum(net[i].txs, RelayedIn(a)))
  }

  function NetIn(net: seq<RelayMsg>, a: Address): int {
    Plus(Amounts(net, a))
  }

  lemma NetInConcat(x: seq<RelayMsg>, y: seq<RelayMsg>, a: Address)
    ensures NetIn(x + y, a) == NetIn(x, a) + NetIn(y, a)
  {
    assert Amounts(x + y, a) == Amounts(x, a) + Amounts(y, a);
    PlusConcat(Amounts(x, a), Amounts(y, a));
  }

  lemma NetInRemoved(net: seq<RelayMsg>, i: nat, a: Address)
    requires i < |net|
    ensures NetIn(net, a) == NetIn(net[..i] + net[i + 1..], a) + Sum(net[i].txs, RelayedIn(a))
  {
    var xs := Amounts(net, a);
    PlusRemoved(xs, i);
    assert Amounts(net[..i] + net[i + 1..], a) == xs[..i] + xs[i + 1..];
  }

  lemma NetInOne(net: seq<RelayMsg>, a: Address)
    requires |net| <= 1
    ensures NetIn(net, a) == if net == [] then 0 else Sum(net[0].txs, RelayedIn(a))
  {
    if net != [] {
      assert Amounts(net, a) == [Sum(net[0].txs, RelayedIn(a))];
      PlusOne(Sum(net[0].txs, RelayedIn(a)));
    }
  }

  lemma OutgoingAmount(v: View, txs: seq<Tx>, n: nat, a: Address)
    requires n > 0
    ensures NetIn(Outgoing(v, txs, n), a) == NetIn(Outgoing(v, txs, n - 1), a) + NetIn(RelayFor(v, txs, n - 1), a)
  {
    NetInConcat(Outgoing(v, txs, n - 1), RelayFor(v, txs, n - 1), a);
  }

  lemma RelayForAmount(c: Config, s: nat, txs: seq<Tx>, d: nat, a: Address)
    requires RoutedAt(c, s, txs)
    ensures NetIn(RelayFor(c.At(s), txs, d), a) == if c.Owner(a) == d && d != s then Sum(txs, In(a)) else 0
  {
    NetInOne(RelayFor(c.At(s), txs, d), a);
    SumRelayedTo(c, s, txs, |txs|, d, a);
  }

  /** What a committed block sends to the owner of a is what it credits a elsewhere. */
  ghost predicate SendsWhole(c: Config, s: nat, txs: seq<Tx>, n: nat, a: Address) {
    NetIn(Outgoing(c.At(s), txs, n), a) == if c.Owner(a) < n && c.Owner(a) != s then Sum(txs, In(a)) else 0
  }

  lemma SendsOneMore(c: Config, s: nat, txs: seq<Tx>, n: nat, a: Address)
    requires RoutedAt(c, s, txs) && SendsWhole(c, s, txs, n, a)
    ensures SendsWhole(c, s, txs, n + 1, a)
  {
    OutgoingAmount(c.At(s), txs, n + 1, a);
    RelayForAmount(c, s, txs, n, a);
  }

  lemma {:induction false} NetInOutgoing(c: Config, s: nat, txs: seq<Tx>, n: nat, a: Address)
    requires RoutedAt(c, s, txs)
    ensures SendsWhole(c, s, txs, n, a)
  {
    if n == 0 {
      NetInOne(Outgoing(c.At(s), txs, n), a);
    } else {
      NetInOutgoing(c, s, txs, n - 1, a);
      SendsOneMore(c, s, txs, n - 1, a);
    }
  }

  // ----- The ledger equation -----

  /** Relayed credits of a still on their way: queued or proposed at its owner, or in flight. */
  function Pending(c: Config, sys: System, a: Address): int
    requires c.Owner(a) < |sys.shards|
  {
    var sh := sys.shards[c.Owner(a)];
    Sum(sh.queue, RelayedIn(a)) + Sum(sh.Proposed(), RelayedIn(a)) + NetIn(sys.net, a)
  }

  /** The account as read at its owner. */
  function Read(c: Config, sys: System, a: Address): int
    requires c.Owner(a) < |sys.shards|
  {
    Balance(sys.shards[c.Owner(a)].state, a)
  }

  /** The balance plus the credits on their way is what the started transactions make of the account; and the
      balance never falls below what the started debits alone would leave. */
  ghost predicate Balanced(c: Config, sys: System, a: Address) {
    && c.Owner(a) < |sys.shards|
    && Read(c, sys, a) + Pending(c, sys, a) == INIT_BALANCE + Sum(sys.started, In(a)) - Sum(sys.started, Out(a))
    && Read(c, sys, a) >= INIT_BALANCE - Sum(sys.started, Out(a))
  }

  /** No account sends more than the initial balance in total. */
  ghost predicate Funded(injected: seq<Tx>) {
    forall a :: Sum(injected, Out(a)) <= INIT_BALANCE
  }

  /** What is started, together with what a shard has proposed, was all injected. */
  lemma ProposedInjected(sys: System, s: nat)
    requires Accounted(sys) && s < |sys.shards|
    ensures multiset(sys.started + Unrelayed(sys.shards[s].Proposed())) <= multiset(sys.injected)
  {
    PartOfTotal(AllHeld(sys.shards), s, |sys.shards|);
    var proposed := multiset(Unrelayed(sys.shards[s].Proposed()));
    assert proposed <= AllHeld(sys.shards)[s];
    MoreOf(multiset(sys.started), proposed, Waiting(sys.shards));
  }

  lemma MoreOf<T>(x: multiset<T>, y: multiset<T>, z: multiset<T>)
    requires y <= z
    ensures x + y <= x + z
  {
  }

  /** A proposed block of a funded run is covered. */
  lemma ProposalCovered(c: Config, sys: System, s: nat)
    requires Routed(c, sys) && Accounted(sys) && s < |sys.shards| && Funded(sys.injected)
    requires forall a :: Balanced(c, sys, a)
    ensures Covered(c.At(s), sys.shards[s].state, sys.shards[s].Proposed())
  {
    var sh := sys.shards[s];
    var mine := sys.started + Unrelayed(sh.Proposed());
    ProposedInjected(sys, s);
    forall a | c.Owner(a) == s
      ensures Sum(sh.Proposed(), Out(a)) <= Balance(sh.state, a)
    {
      assert Balanced(c, sys, a);
      SumSubset(mine, sys.injected, Out(a));
      SumConcat(sys.started, Unrelayed(sh.Proposed()), Out(a));
      SumUnrelayed(sh.Proposed(), Out(a));
    }
  }

  lemma CommitRead(c: Config, sys: System, s: nat, a: Address)
    requires Enabled(c, sys, Commit(s)) && Routed(c, sys) && c.Owner(a) < |sys.shards|
    requires Covered(c.At(s), sys.shards[s].state, sys.shards[s].Proposed())
    ensures var txs := sys.shards[s].Proposed();
            Read(c, Next(c, sys, Commit(s)), a)
            == Read(c, sys, a)
               + if c.Owner(a) == s then Sum(txs, In(a)) + Sum(txs, RelayedIn(a)) - Sum(txs, Out(a)) else 0
  {
    assert ShardRouted(c, s, sys.shards[s]);
    if c.Owner(a) == s {
      ExecBalance(c.At(s), sys.shards[s].state, sys.shards[s].Proposed(), |sys.shards[s].Proposed()|, a);
    }
  }

  lemma CommitPending(c: Config, sys: System, s: nat, a: Address)
    requires Enabled(c, sys, Commit(s)) && Routed(c, sys) && c.Owner(a) < |sys.shards|
    ensures var txs := sys.shards[s].Proposed();
            Pending(c, Next(c, sys, Commit(s)), a) + (if c.Owner(a) == s then Sum(txs, RelayedIn(a)) else 0)
            == Pending(c, sys, a) + (if c.Owner(a) == s then 0 else Sum(txs, In(a)))
  {
    var txs := sys.shards[s].Proposed();
    assert ShardRouted(c, s, sys.shards[s]);
    var out := Outgoing(c.At(s), txs, c.shardNum);
    NetInConcat(sys.net, out, a);
    NetInOutgoing(c, s, txs, c.shardNum, a);
    assert Next(c, sys, Commit(s)).shards[s].Proposed() == [];
  }

  lemma CommitStarted(c: Config, sys: System, s: nat, k: Measure)
    requires Enabled(c, sys, Commit(s)) && (k.In? || k.Out?)
    ensures Sum(Next(c, sys, Commit(s)).started, k) == Sum(sys.started, k) + Sum(sys.shards[s].Proposed(), k)
  {
    SumConcat(sys.started, Unrelayed(sys.shards[s].Proposed()), k);
    SumUnrelayed(sys.shards[s].Proposed(), k);
  }

  lemma CommitBalanced(c: Config, sys: System, s: nat, a: Address)
    requires Enabled(c, sys, Commit(s)) && Routed(c, sys) && Balanced(c, sys, a)
    requires Covered(c.At(s), sys.shards[s].state, sys.shards[s].Proposed())
    ensures Balanced(c, Next(c, sys, Commit(s)), a)
  {
    CommitRead(c, sys, s, a);
    CommitPending(c, sys, s, a);
    CommitStarted(c, sys, s, In(a));
    CommitStarted(c, sys, s, Out(a));
    if c.Owner(a) != s {
      assert ShardRouted(c, s, sys.shards[s]);
      SumElsewhere(c, s, sys.shards[s].Proposed(), |sys.shards[s].Proposed()|, a);
    }
  }

  /** The other steps change neither what is read nor what is pending. */
  lemma OtherPending(c: Config, sys: System, step: Step, a: Address)
    requires Enabled(c, sys, step) && !step.Commit? && Routed(c, sys) && c.Owner(a) < |sys.shards|
    ensures Read(c, Next(c, sys, step), a) == Read(c, sys, a)
    ensures Pending(c, Next(c, sys, step), a) == Pending(c, sys, a)
  {
    match step
    case Inject(tx) =>
      SumConcat(sys.shards[c.Owner(tx.sender)].queue, [tx], RelayedIn(a));
      assert Sum([tx], RelayedIn(a)) == SumTo([tx], 0, RelayedIn(a)) + Amount(tx, RelayedIn(a));
    case Propose(s) =>
      SumSplit(sys.shards[s].queue, Least(c.blockSize, |sys.shards[s].queue|), RelayedIn(a));
    case Deliver(i) =>
      DeliverPending(c, sys, i, a);
  }

  lemma DeliverPending(c: Config, sys: System, i: nat, a: Address)
    requires Enabled(c, sys, Deliver(i)) && Routed(c, sys) && c.Owner(a) < |sys.shards|
    ensures Pending(c, Next(c, sys, Deliver(i)), a) == Pending(c, sys, a)
  {
    var m := sys.net[i];
    assert RelayRouted(c, m);
    NetInRemoved(sys.net, i, a);
    SumConcat(sys.shards[m.dest].queue, m.txs, RelayedIn(a));
    if c.Owner(a) != m.dest {
      SumElsewhere(c, m.dest, m.txs, |m.txs|, a);
    }
  }

  lemma NextBalanced(c: Config, sys: System, step: Step, a: Address)
    requires Enabled(c, sys, step) && Routed(c, sys) && Accounted(sys) && Funded(sys.injected)
    requires forall b :: Balanced(c, sys, b)
    ensures Balanced(c, Next(c, sys, step), a)
  {
    assert Balanced(c, sys, a);
    if step.Commit? {
      ProposalCovered(c, sys, step.s);
      CommitBalanced(c, sys, step.s, a);
    } else {
      OtherPending(c, sys, step, a);
    }
  }

  // ----- Whole runs -----

  lemma InjectedGrows(c: Config, sys: System, step: Step)
    requires Enabled(c, sys, step)
    ensures Funded(Next(c, sys, step).injected) ==> Funded(sys.injected)
  {
    forall a
      ensures Sum(sys.injected, Out(a)) <= Sum(Next(c, sys, step).injected, Out(a))
    {
      if step.Inject? {
        SumConcat(sys.injected, [step.tx], Out(a));
      }
    }
  }

  lemma InitBalanced(c: Config, a: Address)
    requires c.Valid()
    ensures Balanced(c, Init(c), a)
  {
  }

  lemma InitAccounted(c: Config)
    ensures Accounted(Init(c))
  {
    TotalEmpty(AllHeld(Init(c).shards), c.shardNum);
  }

  /** In every run, whatever the interleaving and however relays overtake one another, no transaction is lost
      or duplicated; and when no account injected more than the initial balance, every account satisfies the
      ledger equation. */
  lemma {:induction false} RunBalanced(c: Config, steps: seq<Step>, n: nat)
    requires c.Valid() && n <= |steps|
    ensures Routed(c, Run(c, steps, n)) && Accounted(Run(c, steps, n))
    ensures Funded(Run(c, steps, n).injected) ==> forall a :: Balanced(c, Run(c, steps, n), a)
  {
    RunRouted(c, steps, n);
    if n == 0 {
      InitAccounted(c);
      forall a {
        InitBalanced(c, a);
      }
    } else {
      RunBalanced(c, steps, n - 1);
      var sys, step := Run(c, steps, n - 1), steps[n - 1];
      if Enabled(c, sys, step) {
        NextAccounted(c, sys, step);
        InjectedGrows(c, sys, step);
        if Funded(Next(c, sys, step).injected) {
          forall a
            ensures Balanced(c, Next(c, sys, step), a)
          {
            NextBalanced(c, sys, step, a);
          }
        }
      }
    }
  }

  /** In a funded run the short-balance branch is never taken. */
  lemma RunNeverShort(c: Config, steps: seq<Step>, n: nat, s: nat, i: nat)
    requires c.Valid() && n <= |steps| && Funded(Run(c, steps, n).injected)
    requires s < |Run(c, steps, n).shards| && i < |Run(c, steps, n).shards[s].Proposed()|
    ensures var sh := Run(c, steps, n).shards[s];
            !Short(c.At(s), ExecTxs(c.At(s), sh.state, sh.Proposed(), i), sh.Proposed()[i])
  {
    RunBalanced(c, steps, n);
    var sys := Run(c, steps, n);
    ProposalCovered(c, sys, s);
    assert ShardRouted(c, s, sys.shards[s]);
    NeverShort(c.At(s), sys.shards[s].state, sys.shards[s].Proposed(), i);
  }

  // ----- The sequential ledger -----

  type Ledger = map<Address, int>

  function LedgerBalance(l: Ledger, a: Address): int {
    if a in l then l[a] else INIT_BALANCE
  }

  /** One transaction of the sequential ledger: both accounts appear, and value moves if the sender has it. */
  function Transfer(l: Ledger, t: Tx): Ledger {
    var known := l[t.sender := LedgerBalance(l, t.sender)];
    var both := known[t.recipient := LedgerBalance(known, t.recipient)];
    if both[t.sender] >= t.value then
      var paid := both[t.sender := both[t.sender] - t.value];
      paid[t.recipient := paid[t.recipient] + t.value]
    else both
  }

  function Sequential(txs: seq<Tx>, n: nat): Ledger
    requires n <= |txs|
  {
    if n == 0 then map[] else Transfer(Sequential(txs, n - 1), txs[n - 1])
  }

  lemma TransferBalance(l: Ledger, t: Tx, a: Address)
    requires !t.relayed && LedgerBalance(l, t.sender) >= t.value
    ensures LedgerBalance(Transfer(l, t), a) == LedgerBalance(l, a) - Amount(t, Out(a)) + Amount(t, In(a))
  {
  }

  lemma {:induction false} SequentialBalance(txs: seq<Tx>, n: nat, a: Address)
    requires n <= |txs| && Funded(txs) && AllUnrelayed(txs)
    ensures LedgerBalance(Sequential(txs, n), a) == INIT_BALANCE + SumTo(txs, n, In(a)) - SumTo(txs, n, Out(a))
  {
    if n > 0 {
      var t := txs[n - 1];
      SequentialBalance(txs, n - 1, a);
      SequentialBalance(txs, n - 1, t.sender);
      SumGrows(txs, n, |txs|, Out(t.sender));
      assert Sum(txs, Out(t.sender)) <= INIT_BALANCE;
      TransferBalance(Sequential(txs, n - 1), t, a);
    }
  }

  /** Nothing is queued, proposed or in flight. */
  ghost predicate Drained(sys: System) {
    && (forall s :: 0 <= s < |sys.shards| ==> sys.shards[s].queue == [] && sys.shards[s].Proposed() == [])
    && (forall i :: 0 <= i < |sys.net| ==> sys.net[i].txs == [])
  }

  ghost predicate AllUnrelayed(txs: seq<Tx>) {
    forall i :: 0 <= i < |txs| ==> !txs[i].relayed
  }

  lemma {:induction false} InjectedUnrelayed(c: Config, steps: seq<Step>, n: nat)
    requires n <= |steps|
    ensures AllUnrelayed(Run(c, steps, n).injected)
  {
    if n > 0 {
      InjectedUnrelayed(c, steps, n - 1);
      var sys, step := Run(c, steps, n - 1), steps[n - 1];
      if Enabled(c, sys, step) {
        assert Next(c, sys, step).injected == if step.Inject? then sys.injected + [step.tx] else sys.injected;
      }
    }
  }

  lemma NothingInFlight(net: seq<RelayMsg>, a: Address)
    requires forall i :: 0 <= i < |net| ==> net[i].txs == []
    ensures NetIn(net, a) == 0
  {
    PlusZeros(Amounts(net, a), |net|);
  }

  lemma DrainedAllStarted(sys: System)
    requires Accounted(sys) && Drained(sys)
    ensures multiset(sys.started) == multiset(sys.injected)
  {
    TotalEmpty(AllHeld(sys.shards), |sys.shards|);
  }

  /** Once a funded run is drained, reading each account at its owner gives what running every injected
      transaction in sequence gives, in the injected order or any other. */
  lemma DrainedEqualsSequential(c: Config, steps: seq<Step>, n: nat, order: seq<Tx>, a: Address)
    requires c.Valid() && n <= |steps|
    requires Funded(Run(c, steps, n).injected) && Drained(Run(c, steps, n))
    requires multiset(order) == multiset(Run(c, steps, n).injected)
    ensures c.Owner(a) < |Run(c, steps, n).shards|
    ensures Read(c, Run(c, steps, n), a) == LedgerBalance(Sequential(order, |order|), a)
  {
    var sys := Run(c, steps, n);
    RunBalanced(c, steps, n);
    assert Balanced(c, sys, a);
    NothingInFlight(sys.net, a);
    DrainedAllStarted(sys);
    SumPermuted(sys.started, order, In(a));
    SumPermuted(sys.started, order, Out(a));
    InjectedUnrelayed(c, steps, n);
    OrderUnrelayed(order, sys.injected);
    OrderFunded(order, sys.injected);
    SequentialBalance(order, |order|, a);
  }

  lemma OrderUnrelayed(order: seq<Tx>, txs: seq<Tx>)
    requires multiset(order) == multiset(txs) && AllUnrelayed(txs)
    ensures AllUnrelayed(order)
  {
    forall i | 0 <= i < |order|
      ensures !order[i].relayed
    {
      assert order[i] in multiset(txs);
    }
  }

  lemma OrderFunded(order: seq<Tx>, txs: seq<Tx>)
    requires multiset(order) == multiset(txs) && Funded(txs)
    ensures Funded(order)
  {
    forall a
      ensures Sum(order, Out(a)) <= INIT_BALANCE
    {
      SumPermuted(order, txs, Out(a));
    }
  }

  // ----- Without funding -----

  /** A cross-shard transaction executed at its sender's shard and, relayed as the commit phase does without
      looking at the outcome, at its recipient's shard: the two balances together keep their sum exactly when
      the sender was not short. Otherwise the value is created. */
  lemma CrossShardConserves(c: Config, s: nat, d: nat, sender: Trie, recipient: Trie, t: Tx, i: nat, j: nat)
    requires !t.relayed && !t.hasBroker && c.Owner(t.sender) == s && c.Owner(t.recipient) == d && s != d
    ensures RelayedTo(c.At(s), [t], 1, d) == [t.(relayed := true)]
    ensures var left := ExecTx(c.At(s), sender, t, i);
            var right := ExecTx(c.At(d), recipient, t.(relayed := true), j);
            var gained := Balance(left, t.sender) + Balance(right, t.recipient)
                          - Balance(sender, t.sender) - Balance(recipient, t.recipient);
            && gained == (if Balance(sender, t.sender) < t.value then t.value else 0)
            && (gained == 0 <==> Balance(sender, t.sender) >= t.value || t.value == 0)
  {
    assert RelayedTo(c.At(s), [t], 0, d) == [];
  }

  /** The first block of a sender who is short: nothing is executed, and it is proposed all the same. */
  lemma ShortProposed(c: Config, t: Tx, steps: seq<Step>)
    requires c.Valid() && c.blockSize > 0 && !t.relayed && !t.hasBroker && t.value > INIT_BALANCE
    requires |steps| == 3 && steps[0] == Inject(t) && steps[1] == Propose(c.Owner(t.sender))
    ensures var sys := Run(c, steps, 2);
            && |sys.shards| == c.shardNum && sys.started == [] && sys.net == []
            && sys.shards[c.Owner(t.sender)] == Shard(map[], [], Some(Proposal([t], map[])))
  {
    var s := c.Owner(t.sender);
    var s0, s1 := Run(c, steps, 0), Run(c, steps, 1);
    assert s1 == Next(c, s0, Inject(t));
    assert [] + [t] == [t];
    assert s1.shards[s] == Shard(map[], [t], None);
    OneShort(c.At(s), t, c.blockSize);
    assert Run(c, steps, 2) == Next(c, s1, Propose(s));
  }

  /** The equation fails without funding: whoever sends more than the initial balance to another shard as
      its first transaction keeps its balance, although the transaction counts as started and is relayed. */
  lemma UnfundedCreatesMoney(c: Config, t: Tx)
    requires c.Valid() && c.blockSize > 0 && !t.relayed && !t.hasBroker
    requires t.value > INIT_BALANCE && c.Owner(t.sender) != c.Owner(t.recipient)
    ensures var s := c.Owner(t.sender);
            var sys := Run(c, [Inject(t), Propose(s), Commit(s)], 3);
            && sys.started == [t] && |sys.shards| == c.shardNum
            && Read(c, sys, t.sender) == INIT_BALANCE && !Balanced(c, sys, t.sender)
            && sys.net == Outgoing(c.At(s), [t], c.shardNum)
  {
    var s := c.Owner(t.sender);
    var steps := [Inject(t), Propose(s), Commit(s)];
    ShortProposed(c, t, steps);
    assert Run(c, steps, 3) == Next(c, Run(c, steps, 2), Commit(s));
    var sys := Run(c, steps, 3);
    PlusPositive(Amounts(sys.net, t.sender), |sys.net|);
    assert Unrelayed([t]) == [t];
    assert Sum([t], In(t.sender)) == SumTo([t], 0, In(t.sender)) + Amount(t, In(t.sender)) == 0;
    assert Sum([t], Out(t.sender)) == SumTo([t], 0, Out(t.sender)) + Amount(t, Out(t.sender)) == t.value;
  }

  lemma OneShort(v: View, t: Tx, blockSize: nat)
    requires blockSize > 0 && t.value > INIT_BALANCE && !t.relayed && v.Owns(t.sender)
    ensures [t][..Least(blockSize, |[t]|)] == [t]
    ensures ExecTxs(v, map[], [t], 1) == map[]
  {
  }
}
