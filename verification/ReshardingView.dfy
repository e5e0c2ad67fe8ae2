/** Re-sharding preserves the global account view: an account that all shards pass on along one way is read, at the
    shard that owns it, as the reference ledger has it. In every run in which no announcement overtakes a round all
    accounts go the way of the announcements. */
module ReshardingViews {
  import opened Addresses
  import opened Transactions
  import opened Reshardings

  predicate Same(x: Trie, y: Trie, a: Address) {
    StateOf(x, a, 0) == StateOf(y, a, 0)
  }

  // ----- The way of an account -----

  /** The shard an account is at after each number of rounds; it stays at the last one. */
  type Way = seq<nat>

  function At(way: Way, turn: nat): nat {
    if turn < |way| then way[turn] else if way == [] then 0 else way[|way| - 1]
  }

  ghost predicate InRange(way: Way, shardNum: nat) {
    forall turn: nat :: At(way, turn) < shardNum
  }

  /** A shard that places the account there has it as its own exactly when it is there on the way. */
  predicate Here(way: Way, turn: nat, s: nat, place: nat) {
    place == s <==> At(way, turn) == s
  }

  /** The map that the open round will apply. */
  function Closing(n: Node): PartitionMap {
    if n.phase.Proposed? then n.phase.request.modified
    else if n.round < |n.modified| then n.modified[n.round]
    else map[]
  }

  ghost predicate NodePlaced(c: Config, way: Way, n: Node, s: nat, a: Address) {
    && Here(way, n.turn, s, OwnerOf(n.pm, c.home, a))
    && (n.HasSent() ==> Here(way, n.turn + 1, s, OwnerOf(n.pm + Closing(n), c.home, a)))
  }

  /** Among the accounts sent in a turn to the next shard on the way is the account, if it comes from there, and with
      its state. What is sent to others does not matter. */
  ghost predicate Carried(way: Way, truth: Trie, from: nat, to: nat, tag: nat, accounts: Accounts, a: Address) {
    At(way, tag + 1) == to ==>
      && (a in accounts <==> At(way, tag) == from && from != to)
      && (a in accounts ==> accounts[a] == StateOf(truth, a, 0))
  }

  /** The account has left shard s: the shard it goes to in the turn of s has finished that turn. */
  ghost predicate Gone(nodes: seq<Node>, way: Way, s: nat)
    requires s < |nodes|
  {
    var to := At(way, nodes[s].turn + 1);
    to != s && to < |nodes| && nodes[to].turn > nodes[s].turn
  }

  ghost predicate HeldRight(sys: System, way: Way, s: nat, a: Address)
    requires s < |sys.nodes|
  {
    At(way, sys.nodes[s].turn) == s && !Gone(sys.nodes, way, s) ==> Same(sys.nodes[s].state, sys.truth, a)
  }

  ghost predicate MsgCarried(way: Way, truth: Trie, m: Msg, a: Address) {
    m.AccountsMsg? ==> Carried(way, truth, m.from, m.to, m.tag, m.accounts, a)
  }

  ghost predicate AllCarried(way: Way, truth: Trie, s: nat, n: Node, a: Address) {
    forall t :: t in n.received ==> Carried(way, truth, t, s, n.turn, n.received[t], a)
  }

  /** The account is on its way: placed, held and carried along it. */
  ghost predicate OnWay(c: Config, sys: System, way: Way, a: Address) {
    && (forall s :: 0 <= s < |sys.nodes| ==> NodePlaced(c, way, sys.nodes[s], s, a))
    && (forall s :: 0 <= s < |sys.nodes| ==> HeldRight(sys, way, s, a))
    && (forall m :: m in sys.net ==> MsgCarried(way, sys.truth, m, a))
    && (forall s :: 0 <= s < |sys.nodes| ==> AllCarried(way, sys.truth, s, sys.nodes[s], a))
  }

  /** The accounts to send are taken from the last map of the record. */
  predicate Sends(n: Node, a: Address, t: nat)
    requires n.modified != []
  {
    var last := n.modified[|n.modified| - 1];
    a in last && last[a] == t
  }

  /** A shard that sends passes the account on along the way, and its round's map leads there. */
  ghost predicate Forwards(c: Config, n: Node, way: Way, s: nat, a: Address)
    requires n.modified != []
  {
    && Here(way, n.turn + 1, s, OwnerOf(n.pm + Closing(n), c.home, a))
    && (At(way, n.turn) == s != At(way, n.turn + 1) ==> Sends(n, a, At(way, n.turn + 1)))
  }

  ghost predicate KeepsTo(c: Config, sys: System, step: Step, way: Way, a: Address) {
    Enabled(c, sys, step) && step.Send? ==> Forwards(c, sys.nodes[step.s], way, step.s, a)
  }

  lemma Placed(c: Config, sys: System, way: Way, a: Address, s: nat)
    requires OnWay(c, sys, way, a) && s < |sys.nodes|
    ensures NodePlaced(c, way, sys.nodes[s], s, a) && HeldRight(sys, way, s, a)
    ensures AllCarried(way, sys.truth, s, sys.nodes[s], a)
  {
  }

  // ----- Steps that execute nothing -----

  /** One shard changes without going back, and the reference ledger does not. */
  lemma WayUpdated(c: Config, sys: System, way: Way, a: Address, s: nat, n: Node, net: set<Msg>)
    requires OnWay(c, sys, way, a) && s < |sys.nodes| && n.turn >= sys.nodes[s].turn
    requires NodePlaced(c, way, n, s, a) && AllCarried(way, sys.truth, s, n, a)
    requires HeldRight(System(sys.nodes[s := n], net, sys.maps, sys.truth), way, s, a)
    requires forall m :: m in net ==> m in sys.net || MsgCarried(way, sys.truth, m, a)
    ensures OnWay(c, System(sys.nodes[s := n], net, sys.maps, sys.truth), way, a)
  {
    var next := System(sys.nodes[s := n], net, sys.maps, sys.truth);
    forall u | 0 <= u < |next.nodes| && u != s
      ensures HeldRight(next, way, u, a)
    {
      assert HeldRight(sys, way, u, a);
      assert Gone(sys.nodes, way, u) ==> Gone(next.nodes, way, u);
    }
  }

  /** A shard whose accounts and turn stay the same holds what it held. */
  lemma StillRight(sys: System, way: Way, a: Address, s: nat, n: Node, net: set<Msg>)
    requires s < |sys.nodes| && HeldRight(sys, way, s, a)
    requires n.state == sys.nodes[s].state && n.turn == sys.nodes[s].turn
    ensures HeldRight(System(sys.nodes[s := n], net, sys.maps, sys.truth), way, s, a)
  {
    assert Gone(sys.nodes, way, s) ==> Gone(sys.nodes[s := n], way, s);
  }

  /** Only the record of a shard changes, or what it has heard. */
  lemma RecordOnWay(c: Config, sys: System, way: Way, a: Address, s: nat, n: Node, net: set<Msg>)
    requires OnWay(c, sys, way, a) && s < |sys.nodes| && n.state == sys.nodes[s].state && n.turn == sys.nodes[s].turn
    requires n.pm == sys.nodes[s].pm && n.received == sys.nodes[s].received
    requires n.HasSent() ==> sys.nodes[s].HasSent() && Closing(n) == Closing(sys.nodes[s])
    requires forall m :: m in net && m.AccountsMsg? ==> m in sys.net
    ensures OnWay(c, System(sys.nodes[s := n], net, sys.maps, sys.truth), way, a)
  {
    Placed(c, sys, way, a, s);
    StillRight(sys, way, a, s, n, net);
    WayUpdated(c, sys, way, a, s, n, net);
  }

  lemma CollectedCarried(c: Config, way: Way, truth: Trie, n: Node, m: Msg, a: Address)
    requires AllCarried(way, truth, m.to, n, a) && m.AccountsMsg? && m.tag == n.turn && MsgCarried(way, truth, m, a)
    ensures AllCarried(way, truth, m.to, Collected(c, n, m), a)
  {
  }

  lemma CollectOnWay(c: Config, sys: System, way: Way, a: Address, m: Msg)
    requires OnWay(c, sys, way, a) && m in sys.net && m.AccountsMsg? && m.to < |sys.nodes|
    requires m.tag == sys.nodes[m.to].turn
    ensures var n := Collected(c, sys.nodes[m.to], m);
            OnWay(c, System(sys.nodes[m.to := n], sys.net - {m}, sys.maps, sys.truth), way, a)
  {
    Placed(c, sys, way, a, m.to);
    assert MsgCarried(way, sys.truth, m, a);
    var was := sys.nodes[m.to];
    var n := Collected(c, was, m);
    CollectedCarried(c, way, sys.truth, was, m, a);
    StillRight(sys, way, a, m.to, n, sys.net - {m});
    assert NodePlaced(c, way, n, m.to, a);
    WayUpdated(c, sys, way, a, m.to, n, sys.net - {m});
  }

  // ----- Sending -----

  /** At the time of sending, the account has not gone: its receiver is no further than the sender. */
  lemma LeavingHeld(c: Config, sys: System, way: Way, a: Address, s: nat)
    requires Sync(c, sys) && OnWay(c, sys, way, a) && Enabled(c, sys, Send(s)) && At(way, sys.nodes[s].turn) == s
    ensures Same(sys.nodes[s].state, sys.truth, a)
  {
    Placed(c, sys, way, a, s);
    var to := At(way, sys.nodes[s].turn + 1);
    if to < |sys.nodes| {
      Known(c, sys, s, to);
    }
  }

  /** What is sent to shard t has the account, with its state, exactly when the way leads there. */
  lemma LeavingRight(c: Config, sys: System, way: Way, a: Address, s: nat, t: nat)
    requires Sync(c, sys) && OnWay(c, sys, way, a) && Enabled(c, sys, Send(s)) && t in Others(c, s)
    requires Forwards(c, sys.nodes[s], way, s, a)
    ensures Carried(way, sys.truth, s, t, sys.nodes[s].turn, SentTo(c, sys.nodes[s], s, t), a)
  {
    Placed(c, sys, way, a, s);
    if At(way, sys.nodes[s].turn) == s {
      LeavingHeld(c, sys, way, a, s);
    }
  }

  lemma SendOnWay(c: Config, sys: System, way: Way, a: Address, s: nat)
    requires Sync(c, sys) && OnWay(c, sys, way, a) && Enabled(c, sys, Send(s)) && Forwards(c, sys.nodes[s], way, s, a)
    ensures OnWay(c, Next(c, sys, Send(s)), way, a)
  {
    var n := sys.nodes[s].(phase := Sent);
    var net := sys.net + SentBy(c, sys.nodes[s], s);
    forall m | m in net && m !in sys.net
      ensures MsgCarried(way, sys.truth, m, a)
    {
      LeavingRight(c, sys, way, a, s, m.to);
    }
    Placed(c, sys, way, a, s);
    StillRight(sys, way, a, s, n, net);
    WayUpdated(c, sys, way, a, s, n, net);
  }

  // ----- Executing a block -----

  predicate Touches(v: View, t: Tx, a: Address) {
    (t.sender == a && Debits(v, t)) || (t.recipient == a && Credits(v, t))
  }

  lemma {:induction false} ExecUntouched(v: View, st: Trie, txs: seq<Tx>, n: nat, a: Address)
    requires n <= |txs| && forall i :: 0 <= i < n ==> !Touches(v, txs[i], a)
    ensures var post := ExecTxs(v, st, txs, n);
            (a in post <==> a in st) && (a in st ==> post[a] == st[a])
  {
    if n > 0 {
      ExecUntouched(v, st, txs, n - 1, a);
      assert !Touches(v, txs[n - 1], a);
    }
  }

  lemma {:induction false} ExecKeeps(v: View, st: Trie, txs: seq<Tx>, n: nat, a: Address)
    requires n <= |txs| && a in st
    ensures a in ExecTxs(v, st, txs, n)
  {
    if n > 0 {
      ExecKeeps(v, st, txs, n - 1, a);
    }
  }

  /** Next to a shard outside a round, another shard has gone through as many rounds, or one less and has sent. */
  lemma Near(c: Config, sys: System, u: nat, s: nat)
    requires Sync(c, sys) && u < |sys.nodes| && s < |sys.nodes| && sys.nodes[u].phase == Normal
    ensures var r := sys.nodes[u].turn;
            sys.nodes[s].turn == r || (sys.nodes[s].turn + 1 == r && sys.nodes[s].HasSent())
  {
    Known(c, sys, u, s);
  }

  /** An account of a shard outside a round is held by no other shard. */
  lemma NobodyElse(c: Config, sys: System, way: Way, u: nat, s: nat)
    requires Sync(c, sys) && u < |sys.nodes| && s < |sys.nodes| && u != s
    requires sys.nodes[u].phase == Normal && At(way, sys.nodes[u].turn) == u && At(way, sys.nodes[s].turn) == s
    ensures Gone(sys.nodes, way, s)
  {
    Near(c, sys, u, s);
  }

  /** And no message or received table contains it. */
  lemma NotUnderway(c: Config, sys: System, way: Way, a: Address, u: nat, t: nat, s: nat, accounts: Accounts)
    requires Sync(c, sys) && u < |sys.nodes| && s < |sys.nodes| && t < |sys.nodes|
    requires sys.nodes[u].phase == Normal && At(way, sys.nodes[u].turn) == u
    requires Stage(sys.nodes[t]) >= 3 * sys.nodes[s].turn + 2
    requires Carried(way, sys.truth, t, s, sys.nodes[s].turn, accounts, a)
    ensures At(way, sys.nodes[s].turn + 1) != s || a !in accounts
  {
    Near(c, sys, u, s);
  }

  /** After a block the executing shard agrees with the reference ledger on what it owns. */
  lemma ExecutedRight(v: View, st: Trie, truth: Trie, txs: seq<Tx>, a: Address)
    requires Same(st, truth, a)
    ensures var post := ExecTxs(v, st, txs, |txs|);
            v.Owns(a) ==> Same(post, Overlaid(v, truth, st, post), a)
  {
    if a in st {
      ExecKeeps(v, st, txs, |txs|, a);
    }
  }

  lemma ExecuteHeld(c: Config, sys: System, way: Way, a: Address, u: nat, txs: seq<Tx>, s: nat)
    requires Sync(c, sys) && OnWay(c, sys, way, a) && Enabled(c, sys, Execute(u, txs)) && s < |sys.nodes|
    requires At(way, sys.nodes[s].turn) == s && !Gone(sys.nodes, way, s)
    ensures var next := Next(c, sys, Execute(u, txs));
            Same(next.nodes[s].state, next.truth, a)
  {
    Placed(c, sys, way, a, s);
    Placed(c, sys, way, a, u);
    if s == u {
      ExecutedRight(ViewOf(c, sys, u), sys.nodes[u].state, sys.truth, txs, a);
    } else if ViewOf(c, sys, u).Owns(a) {
      NobodyElse(c, sys, way, u, s);
    }
  }

  /** Executing moves nobody on. */
  lemma SameTurns(c: Config, sys: System, way: Way, u: nat, txs: seq<Tx>, s: nat, a: Address)
    requires Enabled(c, sys, Execute(u, txs)) && s < |sys.nodes|
    ensures var next := Next(c, sys, Execute(u, txs));
            && (Gone(next.nodes, way, s) <==> Gone(sys.nodes, way, s)) && next.nodes[s].turn == sys.nodes[s].turn
            && (NodePlaced(c, way, next.nodes[s], s, a) <==> NodePlaced(c, way, sys.nodes[s], s, a))
  {
  }

  /** The reference ledger changes only where no account is underway. */
  lemma CarriedStill(c: Config, sys: System, way: Way, a: Address, u: nat, t: nat, s: nat, accounts: Accounts,
                     truth: Trie)
    requires Sync(c, sys) && u < |sys.nodes| && s < |sys.nodes| && t < |sys.nodes|
    requires sys.nodes[u].phase == Normal && NodePlaced(c, way, sys.nodes[u], u, a)
    requires Stage(sys.nodes[t]) >= 3 * sys.nodes[s].turn + 2
    requires Carried(way, sys.truth, t, s, sys.nodes[s].turn, accounts, a)
    requires !ViewOf(c, sys, u).Owns(a) ==> Same(truth, sys.truth, a)
    ensures Carried(way, truth, t, s, sys.nodes[s].turn, accounts, a)
  {
    if ViewOf(c, sys, u).Owns(a) {
      NotUnderway(c, sys, way, a, u, t, s, accounts);
    }
  }

  lemma ExecuteOnWay(c: Config, sys: System, way: Way, a: Address, u: nat, txs: seq<Tx>)
    requires Sync(c, sys) && OnWay(c, sys, way, a) && Enabled(c, sys, Execute(u, txs)) && a !in c.brokers
    ensures OnWay(c, Next(c, sys, Execute(u, txs)), way, a)
  {
    var next := Next(c, sys, Execute(u, txs));
    Placed(c, sys, way, a, u);
    assert !ViewOf(c, sys, u).Owns(a) ==> Same(next.truth, sys.truth, a);
    forall s | 0 <= s < |sys.nodes|
      ensures NodePlaced(c, way, next.nodes[s], s, a) && HeldRight(next, way, s, a)
    {
      Placed(c, sys, way, a, s);
      SameTurns(c, sys, way, u, txs, s, a);
      if At(way, sys.nodes[s].turn) == s && !Gone(sys.nodes, way, s) {
        ExecuteHeld(c, sys, way, a, u, txs, s);
      }
    }
    forall m | m in next.net
      ensures MsgCarried(way, next.truth, m, a)
    {
      if m.AccountsMsg? {
        assert MsgOk(sys.nodes, m) && MsgCarried(way, sys.truth, m, a);
        CarriedStill(c, sys, way, a, u, m.from, m.to, m.accounts, next.truth);
      }
    }
    forall s | 0 <= s < |sys.nodes|
      ensures AllCarried(way, next.truth, s, next.nodes[s], a)
    {
      Placed(c, sys, way, a, s);
      forall t | t in sys.nodes[s].received
        ensures Carried(way, next.truth, t, s, sys.nodes[s].turn, sys.nodes[s].received[t], a)
      {
        Known(c, sys, s, s);
        Known(c, sys, s, t);
        CarriedStill(c, sys, way, a, u, t, s, sys.nodes[s].received[t], next.truth);
      }
    }
  }

  // ----- Committing a round -----

  /** When all is collected, an account that the way leads here has been received. */
  lemma AllArrived(c: Config, sys: System, way: Way, a: Address, s: nat)
    requires Sync(c, sys) && OnWay(c, sys, way, a) && InRange(way, c.shardNum) && s < |sys.nodes|
    requires sys.nodes[s].phase.Proposed?
    ensures var from, accounts := At(way, sys.nodes[s].turn), sys.nodes[s].phase.request.accounts;
            At(way, sys.nodes[s].turn + 1) == s ==>
              (a in accounts <==> from != s) && (a in accounts ==> accounts[a] == StateOf(sys.truth, a, 0))
  {
    Known(c, sys, s, s);
    Placed(c, sys, way, a, s);
    var n := sys.nodes[s];
    var from := At(way, n.turn);
    assert from != s ==> from in n.received;
    assert MergeOf(n.received, n.phase.request.accounts);
  }

  /** If the account is on the committing shard afterwards, it was received, or was there before. */
  lemma CommittedRight(c: Config, sys: System, way: Way, a: Address, s: nat)
    requires Sync(c, sys) && OnWay(c, sys, way, a) && InRange(way, c.shardNum) && Enabled(c, sys, Commit(s))
    ensures At(way, sys.nodes[s].turn + 1) == s
            ==> Same(Committed(c, sys.nodes[s], s, sys.nodes[s].phase.request).state, sys.truth, a)
  {
    AllArrived(c, sys, way, a, s);
    Placed(c, sys, way, a, s);
  }

  lemma CommitOnWay(c: Config, sys: System, way: Way, a: Address, s: nat)
    requires Sync(c, sys) && OnWay(c, sys, way, a) && InRange(way, c.shardNum) && Enabled(c, sys, Commit(s))
    ensures OnWay(c, Next(c, sys, Commit(s)), way, a)
  {
    var n := Committed(c, sys.nodes[s], s, sys.nodes[s].phase.request);
    Placed(c, sys, way, a, s);
    CommittedRight(c, sys, way, a, s);
    WayUpdated(c, sys, way, a, s, n, sys.net);
  }

  lemma PublishOnWay(c: Config, sys: System, way: Way, a: Address, maps: seq<PartitionMap>)
    requires OnWay(c, sys, way, a)
    ensures OnWay(c, sys.(maps := maps), way, a)
  {
    forall s | 0 <= s < |sys.nodes|
      ensures HeldRight(sys.(maps := maps), way, s, a)
    {
      Placed(c, sys, way, a, s);
    }
  }

  /** Steps that change the record of shard s, or what it has heard. */
  predicate Records(step: Step, s: nat) {
    match step
    case Arrive(u) => u == s
    case Ready(u) => u == s
    case DeliverReady(m) => m.to == s
    case DeliverSeqID(m) => m.to == s
    case Propose(u, _) => u == s
    case _ => false
  }

  lemma RecordStep(c: Config, sys: System, step: Step, s: nat)
    requires Sync(c, sys) && Enabled(c, sys, step) && Records(step, s)
    ensures var next := Next(c, sys, step);
            && s < |sys.nodes| && next == System(sys.nodes[s := next.nodes[s]], next.net, sys.maps, sys.truth)
            && var was, n := sys.nodes[s], next.nodes[s];
               && n.state == was.state && n.turn == was.turn && n.pm == was.pm && n.received == was.received
               && (n.HasSent() ==> was.HasSent() && Closing(n) == Closing(was))
  {
    Known(c, sys, s, s);
  }

  lemma RecordNet(c: Config, sys: System, step: Step, s: nat)
    requires Enabled(c, sys, step) && Records(step, s)
    ensures forall m :: m in Next(c, sys, step).net && m.AccountsMsg? ==> m in sys.net
  {
  }

  /** An account stays on its way in every step in which a shard that sends keeps to the way. */
  lemma NextOnWay(c: Config, sys: System, step: Step, way: Way, a: Address)
    requires Sync(c, sys) && OnWay(c, sys, way, a) && InRange(way, c.shardNum) && a !in c.brokers
    requires Enabled(c, sys, step) && KeepsTo(c, sys, step, way, a)
    ensures OnWay(c, Next(c, sys, step), way, a)
  {
    match step
    case Publish(m) => PublishOnWay(c, sys, way, a, sys.maps + [m]);
    case Execute(s, txs) => ExecuteOnWay(c, sys, way, a, s, txs);
    case Send(s) => SendOnWay(c, sys, way, a, s);
    case DeliverAccounts(m) =>
      assert MsgOk(sys.nodes, m);
      CollectOnWay(c, sys, way, a, m);
    case Commit(s) => CommitOnWay(c, sys, way, a, s);
    case Arrive(s) => RecordKept(c, sys, step, way, a, s);
    case Ready(s) => RecordKept(c, sys, step, way, a, s);
    case DeliverReady(m) => RecordKept(c, sys, step, way, a, m.to);
    case DeliverSeqID(m) => RecordKept(c, sys, step, way, a, m.to);
    case Propose(s, _) => RecordKept(c, sys, step, way, a, s);
  }

  lemma RecordKept(c: Config, sys: System, step: Step, way: Way, a: Address, s: nat)
    requires Sync(c, sys) && OnWay(c, sys, way, a) && Enabled(c, sys, step) && Records(step, s)
    ensures OnWay(c, Next(c, sys, step), way, a)
  {
    RecordStep(c, sys, step, s);
    RecordNet(c, sys, step, s);
    var next := Next(c, sys, step);
    RecordOnWay(c, sys, way, a, s, next.nodes[s], next.net);
  }

  /** Outside a round the shard that owns an account reads the truth, and no other shard outside a round owns it. */
  lemma NormalReads(c: Config, sys: System, way: Way, a: Address, u: nat, s: nat)
    requires Sync(c, sys) && OnWay(c, sys, way, a) && u < |sys.nodes| && s < |sys.nodes|
    requires sys.nodes[u].phase == Normal && ViewOf(c, sys, u).Owns(a)
    ensures Same(sys.nodes[u].state, sys.truth, a)
    ensures sys.nodes[s].phase == Normal && ViewOf(c, sys, s).Owns(a) ==> s == u
  {
    Placed(c, sys, way, a, u);
    Placed(c, sys, way, a, s);
    var to := At(way, sys.nodes[u].turn + 1);
    if to < |sys.nodes| {
      Near(c, sys, u, to);
    }
    if sys.nodes[s].phase == Normal {
      SameTurn(c, sys, s, u);
    }
  }

  // ----- Runs in which no announcement overtakes a round -----

  /** Where the first k announcements put the account, or all of them if there are less. */
  function Announces(c: Config, maps: seq<PartitionMap>, k: nat, a: Address): nat {
    OwnerOf(PmAfter(maps, if k <= |maps| then k else |maps|), c.home, a)
  }

  /** The way of the announcements. */
  function Announced(c: Config, maps: seq<PartitionMap>, a: Address): Way {
    seq<nat>(|maps| + 1, k requires 0 <= k => Announces(c, maps, k, a))
  }

  lemma AnnouncedAt(c: Config, maps: seq<PartitionMap>, a: Address, turn: nat)
    ensures At(Announced(c, maps, a), turn) == Announces(c, maps, turn, a)
  {
  }

  ghost predicate MapsInto(maps: seq<PartitionMap>, shardNum: nat) {
    forall k, a :: 0 <= k < |maps| && a in maps[k] ==> maps[k][a] < shardNum
  }

  lemma {:induction false} OwnerInRange(c: Config, maps: seq<PartitionMap>, k: nat, a: Address)
    requires Into(c.home, c.shardNum) && MapsInto(maps, c.shardNum) && k <= |maps|
    ensures OwnerOf(PmAfter(maps, k), c.home, a) < c.shardNum
  {
    if k > 0 {
      OwnerInRange(c, maps, k - 1, a);
    }
  }

  lemma AnnouncedInRange(c: Config, maps: seq<PartitionMap>, a: Address)
    requires Into(c.home, c.shardNum) && MapsInto(maps, c.shardNum)
    ensures InRange(Announced(c, maps, a), c.shardNum)
  {
    forall turn: nat
      ensures At(Announced(c, maps, a), turn) < c.shardNum
    {
      AnnouncedAt(c, maps, a, turn);
      OwnerInRange(c, maps, if turn <= |maps| then turn else |maps|, a);
    }
  }

  /** A shard that sends by the map it will apply keeps to the way if that map leads along it. */
  lemma ForwardsBy(c: Config, n: Node, way: Way, s: nat, a: Address)
    requires !n.phase.Proposed? && |n.modified| == n.round + 1
    requires Here(way, n.turn, s, OwnerOf(n.pm, c.home, a))
    requires Here(way, n.turn + 1, s, OwnerOf(n.pm + n.modified[n.round], c.home, a))
    requires At(way, n.turn) == s ==> OwnerOf(n.pm + n.modified[n.round], c.home, a) == At(way, n.turn + 1)
    ensures Forwards(c, n, way, s, a)
  {
  }

  /** A regular shard keeps to the way of the announcements. */
  lemma RegularForwards(c: Config, n: Node, maps: seq<PartitionMap>, way: Way, s: nat, a: Address)
    requires Regular(maps, n) && n.partitionOn && !n.phase.Proposed?
    requires At(way, n.turn) == OwnerOf(PmAfter(maps, n.turn), c.home, a)
    requires At(way, n.turn + 1) == OwnerOf(PmAfter(maps, n.turn + 1), c.home, a)
    ensures Forwards(c, n, way, s, a)
  {
    assert PmAfter(maps, n.turn + 1) == PmAfter(maps, n.turn) + maps[n.turn];
    ForwardsBy(c, n, way, s, a);
  }

  lemma RegularKeepsTo(c: Config, sys: System, step: Step, maps: seq<PartitionMap>, a: Address)
    requires Sync(c, sys) && AllRegular(sys) && sys.maps <= maps
    ensures KeepsTo(c, sys, step, Announced(c, maps, a), a)
  {
    if Enabled(c, sys, step) && step.Send? {
      var n := sys.nodes[step.s];
      Known(c, sys, step.s, step.s);
      RegularThen(sys.maps, maps, n, n);
      AnnouncedAt(c, maps, a, n.turn);
      AnnouncedAt(c, maps, a, n.turn + 1);
      RegularForwards(c, n, maps, Announced(c, maps, a), step.s, a);
    }
  }

  lemma InitOnWay(c: Config, maps: seq<PartitionMap>, a: Address)
    ensures OnWay(c, Init(c), Announced(c, maps, a), a)
  {
    AnnouncedAt(c, maps, a, 0);
  }

  lemma {:induction false} RunMaps(c: Config, steps: seq<Step>, n: nat)
    requires n <= |steps|
    ensures MapsInto(Run(c, steps, n).maps, c.shardNum)
  {
    if n > 0 {
      RunMaps(c, steps, n - 1);
      NextMaps(c, Run(c, steps, n - 1), steps[n - 1]);
    }
  }

  lemma NextMaps(c: Config, sys: System, step: Step)
    requires MapsInto(sys.maps, c.shardNum)
    ensures sys.maps <= After(c, sys, step).maps && MapsInto(After(c, sys, step).maps, c.shardNum)
  {
  }

  lemma {:induction false} RunOnWay(c: Config, steps: seq<Step>, n: nat, maps: seq<PartitionMap>, a: Address)
    requires Into(c.home, c.shardNum) && n <= |steps| && Calm(c, steps, n) && a !in c.brokers
    requires MapsInto(maps, c.shardNum) && Run(c, steps, n).maps <= maps
    ensures Sync(c, Run(c, steps, n)) && AllRegular(Run(c, steps, n))
    ensures OnWay(c, Run(c, steps, n), Announced(c, maps, a), a)
  {
    RunRegular(c, steps, n);
    if n == 0 {
      InitOnWay(c, maps, a);
    } else {
      var sys, step := Run(c, steps, n - 1), steps[n - 1];
      RunMaps(c, steps, n - 1);
      NextMaps(c, sys, step);
      RunOnWay(c, steps, n - 1, maps, a);
      if Enabled(c, sys, step) {
        AnnouncedInRange(c, maps, a);
        RegularKeepsTo(c, sys, step, maps, a);
        NextOnWay(c, sys, step, Announced(c, maps, a), a);
      }
    }
  }

  /** A shard that is not in the middle of a round has, for every account it owns, the state of the reference
      ledger, after any number of rounds with any maps, and however late the other shards are; and no other such
      shard owns the account. */
  lemma OwnerReadsTruth(c: Config, steps: seq<Step>, n: nat, s: nat, t: nat, a: Address)
    requires Into(c.home, c.shardNum) && n <= |steps| && Calm(c, steps, n)
    requires s < c.shardNum && t < c.shardNum && a !in c.brokers
    ensures var sys := Run(c, steps, n);
            && |sys.nodes| == c.shardNum
            && (sys.nodes[s].phase == Normal && ViewOf(c, sys, s).Owns(a) ==>
                  && Same(sys.nodes[s].state, sys.truth, a)
                  && (sys.nodes[t].phase == Normal && ViewOf(c, sys, t).Owns(a) ==> t == s))
  {
    var sys := Run(c, steps, n);
    RunMaps(c, steps, n);
    RunOnWay(c, steps, n, sys.maps, a);
    if sys.nodes[s].phase == Normal && ViewOf(c, sys, s).Owns(a) {
      NormalReads(c, sys, Announced(c, sys.maps, a), a, s, t);
    }
  }

  /** No shard is in the middle of a round, and all have finished the same rounds. */
  ghost predicate Settled(sys: System) {
    forall s, t :: 0 <= s < |sys.nodes| && 0 <= t < |sys.nodes| ==>
      sys.nodes[s].phase == Normal && sys.nodes[s].turn == sys.nodes[t].turn
  }

  /** In a settled system every account has exactly one owner, the one of the announced maps. */
  lemma SettledOwner(c: Config, steps: seq<Step>, n: nat, s: nat, a: Address)
    requires Into(c.home, c.shardNum) && n <= |steps| && Calm(c, steps, n) && Settled(Run(c, steps, n))
    requires s < c.shardNum
    ensures var sys := Run(c, steps, n);
            && |sys.nodes| == c.shardNum && sys.nodes[0].turn <= |sys.maps|
            && var owner := OwnerOf(PmAfter(sys.maps, sys.nodes[0].turn), c.home, a);
               owner < c.shardNum && (ViewOf(c, sys, s).Owns(a) <==> s == owner)
  {
    var sys := Run(c, steps, n);
    RunRegular(c, steps, n);
    RunMaps(c, steps, n);
    assert Regular(sys.maps, sys.nodes[0]) && Regular(sys.maps, sys.nodes[s]);
    OwnerInRange(c, sys.maps, sys.nodes[0].turn, a);
  }

  ghost predicate Untouched(step: Step, a: Address) {
    step.Execute? ==> forall i :: 0 <= i < |step.txs| ==> step.txs[i].sender != a && step.txs[i].recipient != a
  }

  lemma TruthUntouched(c: Config, sys: System, step: Step, a: Address)
    requires Untouched(step, a)
    ensures Same(After(c, sys, step).truth, sys.truth, a)
  {
    if Enabled(c, sys, step) && step.Execute? {
      ExecUntouched(ViewOf(c, sys, step.s), sys.nodes[step.s].state, step.txs, |step.txs|, a);
    }
  }

  lemma {:induction false} CalmBefore(c: Config, steps: seq<Step>, m: nat, n: nat)
    requires m <= n <= |steps| && Calm(c, steps, n)
    ensures Calm(c, steps, m)
  {
    if m < n {
      CalmBefore(c, steps, m, n - 1);
    }
  }

  lemma {:induction false} TruthKept(c: Config, steps: seq<Step>, m: nat, n: nat, a: Address)
    requires m <= n <= |steps| && forall k :: m <= k < n ==> Untouched(steps[k], a)
    ensures Same(Run(c, steps, n).truth, Run(c, steps, m).truth, a)
  {
    if m < n {
      TruthKept(c, steps, m, n - 1, a);
      TruthUntouched(c, Run(c, steps, n - 1), steps[n - 1], a);
    }
  }

  /** Reading an account that no transaction touches gives the same state at its owner before and at its owner
      after, over any number of rounds in between, whatever the maps; also when it moves back. */
  lemma ViewPreserved(c: Config, steps: seq<Step>, m: nat, n: nat, s: nat, t: nat, a: Address)
    requires Into(c.home, c.shardNum) && m <= n <= |steps| && Calm(c, steps, n) && a !in c.brokers
    requires forall k :: m <= k < n ==> Untouched(steps[k], a)
    requires s < c.shardNum && t < c.shardNum
    ensures var before, after := Run(c, steps, m), Run(c, steps, n);
            && |before.nodes| == c.shardNum && |after.nodes| == c.shardNum
            && (before.nodes[s].phase == Normal && ViewOf(c, before, s).Owns(a)
                && after.nodes[t].phase == Normal && ViewOf(c, after, t).Owns(a)
                ==> Same(after.nodes[t].state, before.nodes[s].state, a))
  {
    CalmBefore(c, steps, m, n);
    OwnerReadsTruth(c, steps, m, s, s, a);
    OwnerReadsTruth(c, steps, n, t, t, a);
    TruthKept(c, steps, m, n, a);
  }

  /** What the supervisor waits for before it announces again. */
  ghost predicate AllFinished(sys: System) {
    forall s :: 0 <= s < |sys.nodes| ==> sys.nodes[s].round == |sys.maps|
  }

  /** No shard is more than one announcement behind. */
  ghost predicate AlmostFinished(sys: System) {
    forall s :: 0 <= s < |sys.nodes| ==> |sys.maps| <= sys.nodes[s].round + 1
  }

  lemma AlmostFinishedStep(c: Config, sys: System, step: Step)
    requires Sync(c, sys) && AllRegular(sys) && AlmostFinished(sys)
    requires Enabled(c, sys, step) && (step.Publish? ==> AllFinished(sys))
    ensures CalmStep(c, sys, step) && AlmostFinished(Next(c, sys, step))
  {
    if step.Arrive? || step.Commit? {
      Known(c, sys, step.s, step.s);
      assert Regular(sys.maps, sys.nodes[step.s]);
    }
  }

  lemma WaitingStep(c: Config, sys: System, step: Step)
    requires Sync(c, sys) && AllRegular(sys) && AlmostFinished(sys) && (step.Publish? ==> AllFinished(sys))
    ensures CalmStep(c, sys, step)
    ensures AllRegular(After(c, sys, step)) && AlmostFinished(After(c, sys, step))
  {
    if Enabled(c, sys, step) {
      AlmostFinishedStep(c, sys, step);
    }
    NextRegular(c, sys, step);
  }

  ghost predicate Waits(c: Config, steps: seq<Step>, n: nat)
    requires n <= |steps|
  {
    n > 0 ==> Waits(c, steps, n - 1) && (steps[n - 1].Publish? ==> AllFinished(Run(c, steps, n - 1)))
  }

  /** Announcements that wait until every shard has finished every earlier round never overtake one. */
  lemma {:induction false} WaitingIsCalm(c: Config, steps: seq<Step>, n: nat)
    requires n <= |steps| && Waits(c, steps, n)
    ensures AllRegular(Run(c, steps, n)) && AlmostFinished(Run(c, steps, n)) && Calm(c, steps, n)
  {
    RunSync(c, steps, if n > 0 then n - 1 else 0);
    if n > 0 {
      WaitingIsCalm(c, steps, n - 1);
      WaitingStep(c, Run(c, steps, n - 1), steps[n - 1]);
    }
  }

  // ----- The reference ledger is one ledger -----

  /** No transaction of the list involves a broker. */
  ghost predicate Brokerless(brokers: set<Address>, txs: seq<Tx>) {
    forall i :: 0 <= i < |txs| ==> !txs[i].hasBroker && txs[i].sender !in brokers && txs[i].recipient !in brokers
  }

  /** Two tries with the same balances on the shard's accounts keep them under the same block. */
  lemma {:induction false} ExecAgrees(v: View, brokers: set<Address>, x: Trie, y: Trie, txs: seq<Tx>, n: nat)
    requires n <= |txs| && Brokerless(brokers, txs)
    requires forall a :: v.Owns(a) && a !in brokers ==> Balance(x, a) == Balance(y, a)
    ensures forall a :: v.Owns(a) && a !in brokers ==>
        Balance(ExecTxs(v, x, txs, n), a) == Balance(ExecTxs(v, y, txs, n), a)
  {
    if n > 0 {
      ExecAgrees(v, brokers, x, y, txs, n - 1);
      var t := txs[n - 1];
      var x', y' := ExecTxs(v, x, txs, n - 1), ExecTxs(v, y, txs, n - 1);
      assert !t.hasBroker && t.sender !in brokers;
      assert v.Owns(t.sender) ==> Balance(x', t.sender) == Balance(y', t.sender);
      forall a | v.Owns(a) && a !in brokers
        ensures Balance(ExecTx(v, x', t, n - 1), a) == Balance(ExecTx(v, y', t, n - 1), a)
      {
        assert Balance(x', a) == Balance(y', a);
      }
    }
  }

  lemma OneLedger(v: View, brokers: set<Address>, st: Trie, truth: Trie, txs: seq<Tx>, a: Address)
    requires Brokerless(brokers, txs) && a !in brokers
    requires forall b :: v.Owns(b) && b !in brokers ==> Balance(st, b) == Balance(truth, b)
    ensures Balance(Overlaid(v, truth, st, ExecTxs(v, st, txs, |txs|)), a)
         == Balance(ExecTxs(v, truth, txs, |txs|), a)
  {
    if v.Owns(a) {
      ExecAgrees(v, brokers, st, truth, txs, |txs|);
      if a in st {
        ExecKeeps(v, st, txs, |txs|, a);
      }
    } else {
      ExecLeavesOthers(v, truth, txs, |txs|, a);
    }
  }

  /** In a calm run, a block without brokers does to the balances of the reference ledger what executing it on that
      ledger itself does. */
  lemma TruthIsOneLedger(c: Config, steps: seq<Step>, n: nat, u: nat, txs: seq<Tx>, a: Address)
    requires Into(c.home, c.shardNum) && n <= |steps| && Calm(c, steps, n)
    requires Enabled(c, Run(c, steps, n), Execute(u, txs)) && Brokerless(c.brokers, txs) && a !in c.brokers
    ensures var sys := Run(c, steps, n);
            Balance(Next(c, sys, Execute(u, txs)).truth, a)
            == Balance(ExecTxs(ViewOf(c, sys, u), sys.truth, txs, |txs|), a)
  {
    var sys := Run(c, steps, n);
    RunSync(c, steps, n);
    forall b | ViewOf(c, sys, u).Owns(b) && b !in c.brokers
      ensures Balance(sys.nodes[u].state, b) == Balance(sys.truth, b)
    {
      OwnerReadsTruth(c, steps, n, u, u, b);
    }
    OneLedger(ViewOf(c, sys, u), c.brokers, sys.nodes[u].state, sys.truth, txs, a);
  }
}
