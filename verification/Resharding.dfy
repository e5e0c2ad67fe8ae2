/** Re-sharding with the waiting barrier (pbftInside_modCLPABroker.go, accountTransfermod_Broker.go,
    pbftOutside_modCLPABroker.go), as a step system over all shards and the messages in flight: what reading an
    account at its owner gives does not depend on the migrations. */
module Reshardings {
  import opened Addresses
  import opened Transactions
  import Multisets

  type Accounts = map<Address, AccountState>

  /** A partition request: the map that applies, the accounts received, and the number of maps the leader had. */
  datatype Request = Request(modified: PartitionMap, accounts: Accounts, atid: nat)

  datatype Phase = Normal | Waiting | Sent | Proposed(request: Request)

  /** A shard: its accounts and partition map, and the migration record the handlers share. While it is waiting
      for the others, has sent its accounts and collects theirs, or has its partition request in consensus, its
      leader proposes no blocks. How many announcements it has heard and how many rounds it has gone through are
      histories that no handler reads: the record has its own counter, `round`, which is not the latter when
      announcements overtake rounds. */
  datatype Node = Node(state: Trie, pm: PartitionMap, modified: seq<PartitionMap>, round: nat, partitionOn: bool,
                       phase: Phase, ready: set<nat>, received: map<nat, Accounts>, collectOver: bool,
                       sequenceID: nat, seqIDMap: map<nat, nat>, readySeq: map<nat, nat>, heard: nat, turn: nat)
  {
    predicate HasSent() {
      phase.Sent? || phase.Proposed?
    }

    /** The sequence number each shard was ready with is the one after its last reported block's. */
    predicate SeqAgrees() {
      forall sid :: sid in seqIDMap ==> sid in readySeq && readySeq[sid] == seqIDMap[sid] + 1
    }
  }

  /** Messages between leaders. The tag, the sender's turn, is a history that no handler reads. */
  datatype Msg =
    | ReadyMsg(from: nat, to: nat, tag: nat, seqID: nat)
    | AccountsMsg(from: nat, to: nat, tag: nat, accounts: Accounts)
    | SeqIDMsg(from: nat, to: nat, seqID: nat)

  datatype Config = Config(shardNum: nat, home: Placement, brokers: set<Address>)

  /** All shards, the messages in flight, the maps announced so far, and the ledger of reference: one trie that
      every executed block updates directly and no migration touches. */
  datatype System = System(nodes: seq<Node>, net: set<Msg>, maps: seq<PartitionMap>, truth: Trie)

  datatype Step =
    | Publish(modified: PartitionMap)       // the supervisor announces a new partition
    | Arrive(s: nat)                        // the next announced partition reaches shard s
    | Execute(s: nat, txs: seq<Tx>)         // shard s commits a block
    | Ready(s: nat)                         // its leader stops, tells the others, and waits for them
    | DeliverReady(m: Msg)
    | DeliverSeqID(m: Msg)
    | Send(s: nat)                          // everybody is ready: the accounts that leave are sent
    | DeliverAccounts(m: Msg)
    | Propose(s: nat, order: seq<nat>)      // all is collected: the leader proposes the partition request
    | Commit(s: nat)                        // the shard commits the partition request

  function ViewOf(c: Config, sys: System, s: nat): View
    requires s < |sys.nodes|
  {
    View(s, sys.nodes[s].pm, c.home)
  }

  function UpTo(n: nat): (r: set<nat>)
    ensures |r| == n && forall t: nat :: t in r <==> t < n
  {
    if n == 0 then {} else UpTo(n - 1) + {n - 1}
  }

  function Others(c: Config, s: nat): set<nat> {
    UpTo(c.shardNum) - {s}
  }

  /** What shard s sends to shard t: the accounts that are at s and that the last announced map puts on t. */
  function Leaving(v: View, last: PartitionMap, st: Trie, t: nat): Accounts {
    map a | a in last && last[a] == t && last[a] != v.self && v.Owns(a) :: StateOf(st, a, 0)
  }

  /** The received accounts in one table, later messages overwriting earlier ones. */
  function Merged(received: map<nat, Accounts>, order: seq<nat>, n: nat): Accounts
    requires n <= |order| && forall i :: 0 <= i < |order| ==> order[i] in received
  {
    if n == 0 then map[] else Merged(received, order, n - 1) + received[order[n - 1]]
  }

  /** Filing accounts overwrites those that belong here and ignores the others. */
  function FileAccounts(v: View, st: Trie, accounts: Accounts): Trie {
    st + map a | a in accounts && v.Owns(a) :: accounts[a]
  }

  /** A transaction with a broker involves, besides brokers, only accounts of the shard. */
  predicate Local(v: View, brokers: set<Address>, t: Tx) {
    t.hasBroker ==> (t.sender in brokers || v.Owns(t.sender)) && (t.recipient in brokers || v.Owns(t.recipient))
  }

  ghost predicate AllLocal(v: View, brokers: set<Address>, txs: seq<Tx>) {
    forall i :: 0 <= i < |txs| ==> Local(v, brokers, txs[i])
  }

  function Start(): Node {
    Node(map[], map[], [], 0, false, Normal, {}, map[], false, 1, map[], map[], 0, 0)
  }

  function Init(c: Config): System {
    System(seq(c.shardNum, _ => Start()), {}, [], map[])
  }

  /** The keys of a map are visited in any order, each once. */
  ghost predicate EachOnce(order: seq<nat>) {
    forall i, j :: 0 <= i < j < |order| ==> order[i] != order[j]
  }

  ghost predicate Enabled(c: Config, sys: System, step: Step) {
    match step
    case Publish(m) => forall a :: a in m ==> m[a] < c.shardNum
    case Arrive(s) => s < |sys.nodes| && sys.nodes[s].heard < |sys.maps|
    case Execute(s, txs) =>
      s < |sys.nodes| && sys.nodes[s].phase == Normal && AllLocal(ViewOf(c, sys, s), c.brokers, txs)
    case Ready(s) => s < |sys.nodes| && sys.nodes[s].phase == Normal && sys.nodes[s].partitionOn
    case DeliverReady(m) => m in sys.net && m.ReadyMsg? && m.to < |sys.nodes|
    case DeliverSeqID(m) => m in sys.net && m.SeqIDMsg? && m.to < |sys.nodes|
    case Send(s) =>
      && s < |sys.nodes| && sys.nodes[s].phase == Waiting && sys.nodes[s].modified != []
      && |sys.nodes[s].ready| == c.shardNum && sys.nodes[s].SeqAgrees()
    case DeliverAccounts(m) => m in sys.net && m.AccountsMsg? && m.to < |sys.nodes|
    case Propose(s, order) =>
      && s < |sys.nodes| && sys.nodes[s].phase == Sent && sys.nodes[s].collectOver
      && sys.nodes[s].round < |sys.nodes[s].modified|
      && (forall i :: 0 <= i < |order| ==> order[i] in sys.nodes[s].received)
      && (forall t :: t in sys.nodes[s].received ==> t in order)
      && EachOnce(order)
    case Commit(s) => s < |sys.nodes| && sys.nodes[s].phase.Proposed?
  }

  function Arrived(n: Node, m: PartitionMap): Node {
    n.(modified := n.modified + [m], partitionOn := true, heard := n.heard + 1)
  }

  function Executed(c: Config, n: Node, s: nat, txs: seq<Tx>): Trie {
    ExecTxs(View(s, n.pm, c.home), n.state, txs, |txs|)
  }

  /** The reference ledger with the accounts that a shard owns and a block has changed. */
  function Overlaid(v: View, truth: Trie, pre: Trie, post: Trie): Trie {
    truth + map a | a in post && v.Owns(a) && !(a in pre && pre[a] == post[a]) :: post[a]
  }

  /** The leader stops, and tells everybody with which sequence number. */
  function MadeReady(n: Node, s: nat): Node {
    n.(phase := Waiting, ready := n.ready + {s})
  }

  function ReadyMsgs(c: Config, n: Node, s: nat): set<Msg> {
    set t | t in Others(c, s) :: ReadyMsg(s, t, n.turn, n.sequenceID)
  }

  function HeardReady(n: Node, m: Msg): Node
    requires m.ReadyMsg?
  {
    n.(ready := n.ready + {m.from}, readySeq := n.readySeq[m.from := m.seqID])
  }

  /** The sequence number of a committed block, for everybody else. */
  function SeqIDMsgs(c: Config, n: Node, s: nat): set<Msg> {
    set t | t in Others(c, s) :: SeqIDMsg(s, t, n.sequenceID)
  }

  /** The accounts that leave are taken from the last announced map. */
  function SentTo(c: Config, n: Node, s: nat, t: nat): Accounts
    requires n.modified != []
  {
    Leaving(View(s, n.pm, c.home), n.modified[|n.modified| - 1], n.state, t)
  }

  function SentBy(c: Config, n: Node, s: nat): (r: set<Msg>)
    requires n.modified != []
    ensures forall m :: m in r ==>
              m.AccountsMsg? && m.to in Others(c, s) && m == AccountsMsg(s, m.to, n.turn, SentTo(c, n, s, m.to))
  {
    set t | t in Others(c, s) :: AccountsMsg(s, t, n.turn, SentTo(c, n, s, t))
  }

  function Collected(c: Config, n: Node, m: Msg): Node
    requires m.AccountsMsg?
  {
    var received := n.received[m.from := m.accounts];
    n.(received := received, collectOver := n.collectOver || |received| == c.shardNum - 1)
  }

  /** The partition request has the map of the current round, although the accounts to send were taken from the
      last one. */
  function RequestOf(n: Node, order: seq<nat>): Request
    requires n.round < |n.modified| && forall i :: 0 <= i < |order| ==> order[i] in n.received
  {
    Request(n.modified[n.round], Merged(n.received, order, |order|), |n.modified|)
  }

  /** The commit of the partition request: its map applies, the received accounts that belong here are filed, and
      the record is reset. A node whose number of maps is not the request's adds the request's map to its maps. */
  function Committed(c: Config, n: Node, s: nat, r: Request): Node {
    var pm := n.pm + r.modified;
    var state := FileAccounts(View(s, pm, c.home), n.state, r.accounts);
    var modified := if |n.modified| != r.atid then n.modified + [r.modified] else n.modified;
    Node(state, pm, modified, r.atid, false, Normal, {}, map[], false, n.sequenceID + 1, n.seqIDMap, n.readySeq,
         n.heard, n.turn + 1)
  }

  function Next(c: Config, sys: System, step: Step): System
    requires Enabled(c, sys, step)
  {
    match step
    case Publish(m) => sys.(maps := sys.maps + [m])
    case Arrive(s) =>
      var n := sys.nodes[s];
      sys.(nodes := sys.nodes[s := Arrived(n, sys.maps[n.heard])])
    case Execute(s, txs) =>
      var n := sys.nodes[s];
      var post := Executed(c, n, s, txs);
      sys.(nodes := sys.nodes[s := n.(state := post, sequenceID := n.sequenceID + 1)],
           net := sys.net + SeqIDMsgs(c, n, s),
           truth := Overlaid(ViewOf(c, sys, s), sys.truth, n.state, post))
    case Ready(s) =>
      var n := sys.nodes[s];
      sys.(nodes := sys.nodes[s := MadeReady(n, s)], net := sys.net + ReadyMsgs(c, n, s))
    case DeliverReady(m) =>
      sys.(nodes := sys.nodes[m.to := HeardReady(sys.nodes[m.to], m)], net := sys.net - {m})
    case DeliverSeqID(m) =>
      var n := sys.nodes[m.to];
      sys.(nodes := sys.nodes[m.to := n.(seqIDMap := n.seqIDMap[m.from := m.seqID])], net := sys.net - {m})
    case Send(s) =>
      sys.(nodes := sys.nodes[s := sys.nodes[s].(phase := Sent)], net := sys.net + SentBy(c, sys.nodes[s], s))
    case DeliverAccounts(m) =>
      sys.(nodes := sys.nodes[m.to := Collected(c, sys.nodes[m.to], m)], net := sys.net - {m})
    case Propose(s, order) =>
      sys.(nodes := sys.nodes[s := sys.nodes[s].(phase := Proposed(RequestOf(sys.nodes[s], order)))])
    case Commit(s) =>
      sys.(nodes := sys.nodes[s := Committed(c, sys.nodes[s], s, sys.nodes[s].phase.request)])
  }

  /** A step that is not enabled changes nothing. */
  ghost function After(c: Config, sys: System, step: Step): System {
    if Enabled(c, sys, step) then Next(c, sys, step) else sys
  }

  ghost function Run(c: Config, steps: seq<Step>, n: nat): System
    requires n <= |steps|
  {
    if n == 0 then Init(c) else After(c, Run(c, steps, n - 1), steps[n - 1])
  }

  /** No announcement reaches a shard that has not finished the one before. */
  ghost predicate CalmStep(c: Config, sys: System, step: Step) {
    Enabled(c, sys, step) && step.Arrive? ==> !sys.nodes[step.s].partitionOn
  }

  ghost predicate Calm(c: Config, steps: seq<Step>, n: nat)
    requires n <= |steps|
  {
    n > 0 ==> Calm(c, steps, n - 1) && CalmStep(c, Run(c, steps, n - 1), steps[n - 1])
  }

  // ----- Who is how far, in every run -----

  /** How far a shard is: three stages a turn. */
  function Stage(n: Node): nat {
    3 * n.turn + (if n.phase == Normal then 0 else if n.phase == Waiting then 1 else 2)
  }

  function PmAfter(maps: seq<PartitionMap>, k: nat): PartitionMap
    requires k <= |maps|
  {
    if k == 0 then map[] else PmAfter(maps, k - 1) + maps[k - 1]
  }

  /** The accounts are those of the received tables, each account from one of them. */
  ghost predicate MergeOf(received: map<nat, Accounts>, accounts: Accounts) {
    && (forall t, a :: t in received && a in received[t] ==> a in accounts)
    && (forall a :: a in accounts ==> exists t :: t in received && a in received[t] && received[t][a] == accounts[a])
  }

  /** The record: the current round has its map as long as it is open, and a request for it applies that map. */
  ghost predicate RecordOk(n: Node) {
    && n.round <= |n.modified|
    && (n.partitionOn ==> n.round < |n.modified|)
    && (n.phase.Proposed? ==>
          && n.round < n.phase.request.atid <= |n.modified|
          && n.phase.request.modified == n.modified[n.round])
  }

  ghost predicate NodeOk(c: Config, n: Node, s: nat) {
    && RecordOk(n)
    && (n.phase != Normal ==> n.partitionOn)
    && (n.HasSent() ==> forall t: nat :: t < c.shardNum ==> t in n.ready)
    && (forall t :: t in n.ready ==> t < c.shardNum)
    && (forall t :: t in n.received ==> t in Others(c, s))
    && (n.collectOver ==> forall t :: t in Others(c, s) ==> t in n.received)
    && (n.phase.Proposed? ==> n.collectOver && MergeOf(n.received, n.phase.request.accounts))
  }

  /** How far t is at least, as far as n, of another or the same shard, knows. */
  ghost predicate PairOk(n: Node, t: nat, far: nat) {
    && (t in n.ready ==> far >= 3 * n.turn + 1)
    && (t in n.received ==> far >= 3 * n.turn + 2)
    && (n.turn > 0 ==> far >= 3 * n.turn - 1)
  }

  /** A message in flight, against its sender and its receiver. */
  ghost predicate MsgFits(m: Msg, from: Node, to: Node) {
    && (m.ReadyMsg? ==>
          && Stage(from) >= 3 * m.tag + 1
          && m.tag >= to.turn
          && (m.tag == to.turn ==> m.from !in to.ready))
    && (m.AccountsMsg? ==>
          && Stage(from) >= 3 * m.tag + 2
          && m.tag == to.turn
          && to.phase != Normal
          && m.from !in to.received)
  }

  ghost predicate MsgOk(nodes: seq<Node>, m: Msg) {
    m.from < |nodes| && m.to < |nodes| && m.from != m.to && MsgFits(m, nodes[m.from], nodes[m.to])
  }

  ghost predicate PairsOk(nodes: seq<Node>) {
    forall s, t :: 0 <= s < |nodes| && 0 <= t < |nodes| ==> PairOk(nodes[s], t, Stage(nodes[t]))
  }

  ghost predicate Sync(c: Config, sys: System) {
    && |sys.nodes| == c.shardNum
    && (forall s :: 0 <= s < |sys.nodes| ==> NodeOk(c, sys.nodes[s], s))
    && PairsOk(sys.nodes)
    && (forall m :: m in sys.net ==> MsgOk(sys.nodes, m))
    && OneEach(sys.net)
  }

  predicate Alike(m: Msg, x: Msg) {
    && m.from == x.from && m.to == x.to
    && (if m.ReadyMsg? then x.ReadyMsg? && m.tag == x.tag else m.AccountsMsg? && x.AccountsMsg?)
  }

  /** No two messages with accounts, nor two ready messages of one turn, from one shard to another are in flight
      together. */
  ghost predicate OneEach(net: set<Msg>) {
    forall m, x :: m in net && x in net && Alike(m, x) ==> m == x
  }

  /** One shard changes, and gets no less far. */
  lemma Updated(c: Config, sys: System, s: nat, n: Node, net: set<Msg>, truth: Trie)
    requires Sync(c, sys) && s < |sys.nodes| && Stage(n) >= Stage(sys.nodes[s]) && NodeOk(c, n, s)
    requires forall t: nat :: t < |sys.nodes| ==> PairOk(n, t, Stage(if t == s then n else sys.nodes[t]))
    requires forall m :: m in net ==> MsgOk(sys.nodes[s := n], m)
    requires OneEach(net)
    ensures Sync(c, System(sys.nodes[s := n], net, sys.maps, truth))
  {
  }

  /** A message in flight when shard s changes without going back. */
  lemma MsgKept(sys: System, s: nat, n: Node, m: Msg)
    requires s < |sys.nodes| && MsgOk(sys.nodes, m) && Stage(n) >= Stage(sys.nodes[s])
    requires m.to == s ==> MsgFits(m, sys.nodes[m.from], n)
    ensures MsgOk(sys.nodes[s := n], m)
  {
  }

  /** The messages that stay in flight when shard s takes one, or none, without going back. */
  lemma AllKept(c: Config, sys: System, s: nat, n: Node, net: set<Msg>)
    requires Sync(c, sys) && s < |sys.nodes| && Stage(n) >= Stage(sys.nodes[s]) && net <= sys.net
    requires forall m :: m in net && m.to == s ==> MsgFits(m, sys.nodes[m.from], n)
    ensures forall m :: m in net ==> MsgOk(sys.nodes[s := n], m)
  {
    forall m | m in net
      ensures MsgOk(sys.nodes[s := n], m)
    {
      MsgKept(sys, s, n, m);
    }
  }

  lemma {:induction false} PmPrefix(x: seq<PartitionMap>, y: seq<PartitionMap>, k: nat)
    requires k <= |x| && x <= y
    ensures PmAfter(y, k) == PmAfter(x, k)
  {
    if k > 0 {
      PmPrefix(x, y, k - 1);
    }
  }

  lemma Known(c: Config, sys: System, s: nat, t: nat)
    requires Sync(c, sys) && s < |sys.nodes| && t < |sys.nodes|
    ensures NodeOk(c, sys.nodes[s], s) && NodeOk(c, sys.nodes[t], t)
    ensures PairOk(sys.nodes[s], t, Stage(sys.nodes[t])) && PairOk(sys.nodes[t], s, Stage(sys.nodes[s]))
  {
  }

  lemma ArriveSync(c: Config, sys: System, s: nat)
    requires Sync(c, sys) && Enabled(c, sys, Arrive(s))
    ensures Sync(c, Next(c, sys, Arrive(s)))
  {
    Known(c, sys, s, s);
    var n := Arrived(sys.nodes[s], sys.maps[sys.nodes[s].heard]);
    AllKept(c, sys, s, n, sys.net);
    Updated(c, sys, s, n, sys.net, sys.truth);
  }

  lemma ExecuteSync(c: Config, sys: System, s: nat, txs: seq<Tx>)
    requires Sync(c, sys) && Enabled(c, sys, Execute(s, txs))
    ensures Sync(c, Next(c, sys, Execute(s, txs)))
  {
    Known(c, sys, s, s);
    var next := Next(c, sys, Execute(s, txs));
    var n := next.nodes[s];
    forall m | m in next.net
      ensures MsgOk(sys.nodes[s := n], m)
    {
      if m in sys.net {
        MsgKept(sys, s, n, m);
      }
    }
    Updated(c, sys, s, n, next.net, next.truth);
  }

  /** The ready messages of a round are new. */
  lemma ReadyMsgsNew(c: Config, sys: System, s: nat)
    requires Sync(c, sys) && s < |sys.nodes| && sys.nodes[s].phase == Normal
    ensures OneEach(sys.net + ReadyMsgs(c, sys.nodes[s], s))
  {
    forall x | x in sys.net && x.ReadyMsg? && x.from == s
      ensures x.tag != sys.nodes[s].turn
    {
      assert MsgOk(sys.nodes, x);
    }
  }

  lemma ReadySync(c: Config, sys: System, s: nat)
    requires Sync(c, sys) && Enabled(c, sys, Ready(s))
    ensures Sync(c, Next(c, sys, Ready(s)))
  {
    Known(c, sys, s, s);
    var n := MadeReady(sys.nodes[s], s);
    var net := sys.net + ReadyMsgs(c, sys.nodes[s], s);
    forall m | m in net
      ensures MsgOk(sys.nodes[s := n], m)
    {
      if m in sys.net {
        MsgKept(sys, s, n, m);
      } else {
        Known(c, sys, s, m.to);
      }
    }
    ReadyMsgsNew(c, sys, s);
    Updated(c, sys, s, n, net, sys.truth);
  }

  lemma HeardReadyOk(c: Config, sys: System, m: Msg)
    requires Sync(c, sys) && Enabled(c, sys, DeliverReady(m))
    ensures var n := HeardReady(sys.nodes[m.to], m);
            && NodeOk(c, n, m.to)
            && forall t: nat :: t < |sys.nodes| ==> PairOk(n, t, Stage(if t == m.to then n else sys.nodes[t]))
  {
    assert MsgOk(sys.nodes, m);
    Known(c, sys, m.from, m.to);
  }

  lemma DeliverReadySync(c: Config, sys: System, m: Msg)
    requires Sync(c, sys) && Enabled(c, sys, DeliverReady(m))
    ensures Sync(c, Next(c, sys, DeliverReady(m)))
  {
    HeardReadyOk(c, sys, m);
    var n := HeardReady(sys.nodes[m.to], m);
    forall x | x in sys.net - {m} && x.to == m.to
      ensures MsgFits(x, sys.nodes[x.from], n)
    {
      assert MsgOk(sys.nodes, x) && !Alike(m, x);
    }
    AllKept(c, sys, m.to, n, sys.net - {m});
    Updated(c, sys, m.to, n, sys.net - {m}, sys.truth);
  }

  lemma DeliverSeqIDSync(c: Config, sys: System, m: Msg)
    requires Sync(c, sys) && Enabled(c, sys, DeliverSeqID(m))
    ensures Sync(c, Next(c, sys, DeliverSeqID(m)))
  {
    Known(c, sys, m.to, m.to);
    var n := sys.nodes[m.to].(seqIDMap := sys.nodes[m.to].seqIDMap[m.from := m.seqID]);
    AllKept(c, sys, m.to, n, sys.net - {m});
    Updated(c, sys, m.to, n, sys.net - {m}, sys.truth);
  }

  /** The messages a shard sends when everybody is ready. */
  lemma SentMsgOk(c: Config, sys: System, s: nat, m: Msg)
    requires Sync(c, sys) && s < |sys.nodes| && sys.nodes[s].phase == Waiting && |sys.nodes[s].ready| == c.shardNum
    requires m.AccountsMsg? && m.from == s && m.to in Others(c, s) && m.tag == sys.nodes[s].turn
    ensures MsgOk(sys.nodes[s := sys.nodes[s].(phase := Sent)], m)
    ensures forall x :: x in sys.net && x.AccountsMsg? && x.from == s ==> x.to != m.to
  {
    Known(c, sys, s, m.to);
    AllReady(c, sys.nodes[s].ready);
    forall x | x in sys.net && x.AccountsMsg? && x.from == s
      ensures x.to != m.to
    {
      assert MsgOk(sys.nodes, x);
    }
  }

  lemma OneEachSent(c: Config, n: Node, s: nat, net: set<Msg>)
    requires OneEach(net) && n.modified != []
    requires forall x, t :: x in net && x.AccountsMsg? && x.from == s && t in Others(c, s) ==> x.to != t
    ensures OneEach(net + SentBy(c, n, s))
  {
  }

  lemma SendSync(c: Config, sys: System, s: nat)
    requires Sync(c, sys) && Enabled(c, sys, Send(s))
    ensures Sync(c, Next(c, sys, Send(s)))
  {
    Known(c, sys, s, s);
    AllReady(c, sys.nodes[s].ready);
    var n := sys.nodes[s].(phase := Sent);
    var sent := SentBy(c, sys.nodes[s], s);
    forall m | m in sent
      ensures MsgOk(sys.nodes[s := n], m)
    {
      SentMsgOk(c, sys, s, m);
    }
    AllKept(c, sys, s, n, sys.net);
    forall x, t | x in sys.net && x.AccountsMsg? && x.from == s && t in Others(c, s)
      ensures x.to != t
    {
      SentMsgOk(c, sys, s, AccountsMsg(s, t, sys.nodes[s].turn, map[]));
    }
    OneEachSent(c, sys.nodes[s], s, sys.net);
    Updated(c, sys, s, n, sys.net + sent, sys.truth);
  }

  lemma AllReady(c: Config, ready: set<nat>)
    requires |ready| == c.shardNum && forall t :: t in ready ==> t < c.shardNum
    ensures forall t: nat :: t < c.shardNum ==> t in ready
  {
    Multisets.SameSize(ready, UpTo(c.shardNum));
  }

  lemma AllCollected(c: Config, s: nat, received: map<nat, Accounts>)
    requires s < c.shardNum && forall t :: t in received ==> t in Others(c, s)
    ensures |received| == c.shardNum - 1 ==> forall t :: t in Others(c, s) ==> t in received
  {
    if |received| == c.shardNum - 1 {
      Multisets.SameSize(received.Keys, Others(c, s));
    }
  }

  lemma CollectedOk(c: Config, sys: System, m: Msg)
    requires Sync(c, sys) && Enabled(c, sys, DeliverAccounts(m))
    ensures NodeOk(c, Collected(c, sys.nodes[m.to], m), m.to)
  {
    assert MsgOk(sys.nodes, m);
    Known(c, sys, m.from, m.to);
    assert !sys.nodes[m.to].phase.Proposed?;
    AllCollected(c, m.to, Collected(c, sys.nodes[m.to], m).received);
  }

  lemma CollectedPairs(c: Config, sys: System, m: Msg)
    requires Sync(c, sys) && Enabled(c, sys, DeliverAccounts(m))
    ensures var n := Collected(c, sys.nodes[m.to], m);
            forall t: nat :: t < |sys.nodes| ==> PairOk(n, t, Stage(if t == m.to then n else sys.nodes[t]))
  {
    assert MsgOk(sys.nodes, m);
    Known(c, sys, m.from, m.to);
  }

  lemma DeliverAccountsSync(c: Config, sys: System, m: Msg)
    requires Sync(c, sys) && Enabled(c, sys, DeliverAccounts(m))
    ensures Sync(c, Next(c, sys, DeliverAccounts(m)))
  {
    CollectedOk(c, sys, m);
    CollectedPairs(c, sys, m);
    var n := Collected(c, sys.nodes[m.to], m);
    forall x | x in sys.net - {m} && x.to == m.to
      ensures MsgFits(x, sys.nodes[x.from], n)
    {
      assert MsgOk(sys.nodes, x) && !Alike(m, x);
    }
    AllKept(c, sys, m.to, n, sys.net - {m});
    Updated(c, sys, m.to, n, sys.net - {m}, sys.truth);
  }

  /** When a shard has collected everything, the others have all sent; and nothing of the round is left on the
      way to it. */
  lemma RoundOver(c: Config, sys: System, s: nat, n: Node, t: nat)
    requires Sync(c, sys) && s < |sys.nodes| && sys.nodes[s].HasSent() && sys.nodes[s].collectOver && t < |sys.nodes|
    requires n.turn == sys.nodes[s].turn + 1 && n.phase == Normal && n.ready == {} && n.received == map[]
    ensures PairOk(n, t, Stage(if t == s then n else sys.nodes[t]))
  {
  }

  lemma NothingLeft(c: Config, sys: System, s: nat, n: Node, m: Msg)
    requires Sync(c, sys) && s < |sys.nodes| && sys.nodes[s].HasSent() && sys.nodes[s].collectOver && m in sys.net
    requires n.turn == sys.nodes[s].turn + 1 && n.phase == Normal && n.ready == {} && n.received == map[]
    ensures MsgOk(sys.nodes[s := n], m)
  {
  }

  lemma {:induction false} MergedHas(received: map<nat, Accounts>, order: seq<nat>, n: nat, a: Address)
    requires n <= |order| && forall i :: 0 <= i < |order| ==> order[i] in received
    ensures a in Merged(received, order, n)
            ==> exists t :: t in received && a in received[t] && received[t][a] == Merged(received, order, n)[a]
    ensures a !in Merged(received, order, n) ==> forall i :: 0 <= i < n ==> a !in received[order[i]]
  {
    if n > 0 {
      MergedHas(received, order, n - 1, a);
      assert order[n - 1] in received;
    }
  }

  lemma MergedIsMerge(received: map<nat, Accounts>, order: seq<nat>)
    requires forall i :: 0 <= i < |order| ==> order[i] in received
    requires forall t :: t in received ==> t in order
    ensures MergeOf(received, Merged(received, order, |order|))
  {
    forall a
      ensures a in Merged(received, order, |order|)
              ==> exists t :: t in received && a in received[t] && received[t][a] == Merged(received, order, |order|)[a]
      ensures a !in Merged(received, order, |order|) ==> forall t :: t in received ==> a !in received[t]
    {
      MergedHas(received, order, |order|, a);
    }
  }

  lemma ProposeSync(c: Config, sys: System, s: nat, order: seq<nat>)
    requires Sync(c, sys) && Enabled(c, sys, Propose(s, order))
    ensures Sync(c, Next(c, sys, Propose(s, order)))
  {
    Known(c, sys, s, s);
    var n := sys.nodes[s].(phase := Proposed(RequestOf(sys.nodes[s], order)));
    MergedIsMerge(n.received, order);
    AllKept(c, sys, s, n, sys.net);
    Updated(c, sys, s, n, sys.net, sys.truth);
  }

  lemma CommitSync(c: Config, sys: System, s: nat)
    requires Sync(c, sys) && Enabled(c, sys, Commit(s))
    ensures Sync(c, Next(c, sys, Commit(s)))
  {
    Known(c, sys, s, s);
    var n := Committed(c, sys.nodes[s], s, sys.nodes[s].phase.request);
    forall t: nat | t < |sys.nodes|
      ensures PairOk(n, t, Stage(if t == s then n else sys.nodes[t]))
    {
      RoundOver(c, sys, s, n, t);
    }
    forall m | m in sys.net
      ensures MsgOk(sys.nodes[s := n], m)
    {
      NothingLeft(c, sys, s, n, m);
    }
    Updated(c, sys, s, n, sys.net, sys.truth);
  }

  /** The barrier holds in every run, whatever announcements overtake. */
  lemma NextSync(c: Config, sys: System, step: Step)
    requires Sync(c, sys) && Enabled(c, sys, step)
    ensures Sync(c, Next(c, sys, step))
  {
    match step
    case Publish(_) =>
    case Arrive(s) => ArriveSync(c, sys, s);
    case Execute(s, txs) => ExecuteSync(c, sys, s, txs);
    case Ready(s) => ReadySync(c, sys, s);
    case DeliverReady(m) => DeliverReadySync(c, sys, m);
    case DeliverSeqID(m) => DeliverSeqIDSync(c, sys, m);
    case Send(s) => SendSync(c, sys, s);
    case DeliverAccounts(m) => DeliverAccountsSync(c, sys, m);
    case Propose(s, order) => ProposeSync(c, sys, s, order);
    case Commit(s) => CommitSync(c, sys, s);
  }

  lemma {:induction false} RunSync(c: Config, steps: seq<Step>, n: nat)
    requires n <= |steps|
    ensures Sync(c, Run(c, steps, n))
  {
    if n > 0 {
      RunSync(c, steps, n - 1);
      if Enabled(c, Run(c, steps, n - 1), steps[n - 1]) {
        NextSync(c, Run(c, steps, n - 1), steps[n - 1]);
      }
    }
  }

  /** Two shards outside a round have gone through the same number of rounds. */
  lemma SameTurn(c: Config, sys: System, s: nat, t: nat)
    requires Sync(c, sys) && s < |sys.nodes| && t < |sys.nodes|
    requires sys.nodes[s].phase == Normal && sys.nodes[t].phase == Normal
    ensures sys.nodes[s].turn == sys.nodes[t].turn
  {
    Known(c, sys, s, t);
  }

  // ----- Which announcement a shard performs -----

  /** In its next round, or its open one, the shard sends by and applies one announcement: that of its turn, or one
      that is the given number of announcements ahead. */
  ghost predicate OnTrack(maps: seq<PartitionMap>, n: Node, ahead: nat) {
    && n.heard == n.turn + ahead + (if n.partitionOn then 1 else 0) <= |maps|
    && |n.modified| == n.round + (if n.partitionOn then 1 else 0)
    && (n.partitionOn ==> n.modified[n.round] == maps[n.turn + ahead])
    && (n.phase.Proposed? ==> n.phase.request.atid == |n.modified|)
  }

  /** It is the announcement of its turn, and all earlier ones are applied. */
  ghost predicate Regular(maps: seq<PartitionMap>, n: Node) {
    OnTrack(maps, n, 0) && n.round == n.turn && n.pm == PmAfter(maps, n.turn)
  }

  ghost predicate AllRegular(sys: System) {
    forall s :: 0 <= s < |sys.nodes| ==> Regular(sys.maps, sys.nodes[s])
  }

  /** Steps that leave a shard's record, its map and its turn alone. */
  predicate SameRecord(n: Node, next: Node) {
    && next.heard == n.heard && next.turn == n.turn && next.partitionOn == n.partitionOn && next.round == n.round
    && next.modified == n.modified && next.pm == n.pm
    && (n.HasSent() || next.phase.Proposed? ==> next.phase == n.phase)
  }

  lemma RecordUnmoved(c: Config, sys: System, step: Step, s: nat)
    requires Enabled(c, sys, step) && s < |sys.nodes| && !step.Propose?
    requires step != Arrive(s) && step != Commit(s)
    ensures |Next(c, sys, step).nodes| == |sys.nodes| && SameRecord(sys.nodes[s], Next(c, sys, step).nodes[s])
  {
    if step.DeliverReady? || step.DeliverSeqID? || step.DeliverAccounts? {
      RecordUnmovedBy(c, sys, step, s);
    }
  }

  lemma RecordUnmovedBy(c: Config, sys: System, step: Step, s: nat)
    requires Enabled(c, sys, step) && s < |sys.nodes|
    requires step.DeliverReady? || step.DeliverSeqID? || step.DeliverAccounts?
    ensures |Next(c, sys, step).nodes| == |sys.nodes| && SameRecord(sys.nodes[s], Next(c, sys, step).nodes[s])
  {
  }

  lemma CommittedOnTrack(c: Config, maps: seq<PartitionMap>, n: Node, s: nat, ahead: nat)
    requires OnTrack(maps, n, ahead) && RecordOk(n) && n.partitionOn && n.phase.Proposed?
    ensures var next := Committed(c, n, s, n.phase.request);
            && OnTrack(maps, next, ahead) && next.turn == n.turn + 1 && next.round == n.round + 1
            && n.turn + ahead < |maps| && next.pm == n.pm + maps[n.turn + ahead] && next.modified == n.modified
            && next.heard == n.heard
  {
  }

  lemma ArrivedOnTrack(maps: seq<PartitionMap>, n: Node, ahead: nat)
    requires OnTrack(maps, n, ahead) && RecordOk(n) && !n.partitionOn && n.heard < |maps|
    requires n.phase == Normal
    ensures var next := Arrived(n, maps[n.heard]);
            OnTrack(maps, next, ahead) && next.turn == n.turn && next.round == n.round && next.pm == n.pm
  {
  }

  lemma ProposedOnTrack(maps: seq<PartitionMap>, n: Node, order: seq<nat>, ahead: nat)
    requires OnTrack(maps, n, ahead) && n.round < |n.modified|
    requires forall i :: 0 <= i < |order| ==> order[i] in n.received
    ensures var next := n.(phase := Proposed(RequestOf(n, order)));
            OnTrack(maps, next, ahead) && next.turn == n.turn && next.round == n.round && next.pm == n.pm
  {
  }

  /** No step but an announcement that overtakes its round takes a shard off its track, and the record's counter keeps
      step with its turns. */
  lemma StaysOnTrack(c: Config, sys: System, step: Step, s: nat, ahead: nat)
    requires Sync(c, sys) && Enabled(c, sys, step) && s < |sys.nodes| && OnTrack(sys.maps, sys.nodes[s], ahead)
    requires step == Arrive(s) ==> !sys.nodes[s].partitionOn
    ensures var next := Next(c, sys, step);
            && |next.nodes| == |sys.nodes| && OnTrack(next.maps, next.nodes[s], ahead)
            && next.nodes[s].round - next.nodes[s].turn == sys.nodes[s].round - sys.nodes[s].turn
            && (if step == Commit(s)
                then && next.nodes[s].turn == sys.nodes[s].turn + 1
                     && sys.nodes[s].turn + ahead < |sys.maps|
                     && next.nodes[s].pm == sys.nodes[s].pm + sys.maps[sys.nodes[s].turn + ahead]
                else next.nodes[s].turn == sys.nodes[s].turn && next.nodes[s].pm == sys.nodes[s].pm)
  {
    Known(c, sys, s, s);
    if step == Commit(s) {
      CommittedOnTrack(c, sys.maps, sys.nodes[s], s, ahead);
    } else if step == Arrive(s) {
      ArrivedOnTrack(sys.maps, sys.nodes[s], ahead);
    } else if step.Propose? {
      if step.s == s {
        ProposedOnTrack(sys.maps, sys.nodes[s], step.order, ahead);
      }
    } else {
      RecordUnmoved(c, sys, step, s);
    }
  }

  lemma RegularThen(maps: seq<PartitionMap>, later: seq<PartitionMap>, n: Node, next: Node)
    requires Regular(maps, n) && OnTrack(later, next, 0) && maps <= later
    requires next.round - next.turn == n.round - n.turn
    requires if next.turn == n.turn then next.pm == n.pm
             else next.turn == n.turn + 1 && n.turn < |maps| && next.pm == n.pm + maps[n.turn]
    ensures Regular(later, next)
  {
    PmPrefix(maps, later, n.turn);
  }

  lemma StaysRegular(c: Config, sys: System, step: Step, s: nat)
    requires Sync(c, sys) && Enabled(c, sys, step) && CalmStep(c, sys, step) && s < |sys.nodes|
    requires Regular(sys.maps, sys.nodes[s])
    ensures |Next(c, sys, step).nodes| == |sys.nodes| && Regular(Next(c, sys, step).maps, Next(c, sys, step).nodes[s])
  {
    StaysOnTrack(c, sys, step, s, 0);
    RegularThen(sys.maps, Next(c, sys, step).maps, sys.nodes[s], Next(c, sys, step).nodes[s]);
  }

  lemma NextRegular(c: Config, sys: System, step: Step)
    requires Sync(c, sys) && AllRegular(sys) && CalmStep(c, sys, step)
    ensures AllRegular(After(c, sys, step))
  {
    if Enabled(c, sys, step) {
      forall s | 0 <= s < |sys.nodes|
        ensures Regular(Next(c, sys, step).maps, Next(c, sys, step).nodes[s])
      {
        StaysRegular(c, sys, step, s);
      }
    }
  }

  lemma {:induction false} RunRegular(c: Config, steps: seq<Step>, n: nat)
    requires n <= |steps| && Calm(c, steps, n)
    ensures Sync(c, Run(c, steps, n)) && AllRegular(Run(c, steps, n))
  {
    RunSync(c, steps, n);
    if n > 0 {
      RunRegular(c, steps, n - 1);
      NextRegular(c, Run(c, steps, n - 1), steps[n - 1]);
    }
  }
}
