/** The transaction queues of all shards over the re-sharding steps in broker mode: when every injected transaction is
    routed by the map its shard is about to work with, no block ever holds a transaction on which the commit phase
    panics (pbftInside_modCLPABroker.go). */
module QueuedShards {
  import opened Addresses
  import opened Filters
  import opened Transactions
  import opened QueueMigration
  import opened BrokerQueues
  import opened Reshardings
  import B = BrokerCommittees

  /** A shard's queue, and the transactions received along with the accounts, by sender. */
  datatype Box = Box(queue: seq<Tx>, along: map<nat, seq<Tx>>)

  /** The shards with their queues, and the transactions that go along with the accounts in flight. */
  datatype Queued = Queued(sys: System, boxes: seq<Box>, parcels: map<Msg, seq<Tx>>)

  datatype Act =
    | Shards(step: Step)
    | Inject(s: nat, txs: seq<Tx>)    // transactions, or halves, reach the queue of shard s

  function Along(box: Box, t: nat): seq<Tx> {
    if t in box.along then box.along[t] else []
  }

  function Parcel(q: Queued, m: Msg): seq<Tx> {
    if m in q.parcels then q.parcels[m] else []
  }

  /** Blocks take the oldest queued transactions. */
  ghost predicate Possible(c: Config, q: Queued, act: Act) {
    match act
    case Shards(step) =>
      Enabled(c, q.sys, step) && |q.boxes| == |q.sys.nodes| && (step.Execute? ==> step.txs <= q.boxes[step.s].queue)
    case Inject(s, txs) => s < |q.boxes|
  }

  /** The round as a sending shard sees it, by its last announced map. */
  function SendRound(c: Config, n: Node, s: nat): Round
    requires n.modified != []
  {
    Round(View(s, n.pm, c.home), n.modified[|n.modified| - 1])
  }

  function Parcels(c: Config, n: Node, s: nat, queue: seq<Tx>): map<Msg, seq<Tx>>
    requires n.modified != []
  {
    map m | m in SentBy(c, n, s) :: All(GoesAlong(SendRound(c, n, s), m.to), queue)
  }

  function Alongs(box: Box, order: seq<nat>, n: nat): seq<Tx>
    requires n <= |order|
  {
    if n == 0 then [] else Alongs(box, order, n - 1) + Along(box, order[n - 1])
  }

  /** The queue keeps what remains after a round has sent. */
  function Split(box: Box, r: Round, n: nat): Box {
    box.(queue := All(Remains(r, n), box.queue))
  }

  /** One more message's transactions are there. */
  function Fuller(box: Box, from: nat, txs: seq<Tx>): Box {
    box.(along := box.along[from := txs])
  }

  /** What has come along joins the queue. */
  function Joined(box: Box, order: seq<nat>): Box {
    box.(queue := box.queue + Alongs(box, order, |order|))
  }

  function Emptied(box: Box): Box {
    box.(along := map[])
  }

  function KeptBox(c: Config, q: Queued, s: nat): Box
    requires s < |q.sys.nodes| == |q.boxes| && q.sys.nodes[s].modified != []
  {
    Split(q.boxes[s], SendRound(c, q.sys.nodes[s], s), c.shardNum)
  }

  function FullerBox(q: Queued, m: Msg): Box
    requires m.to < |q.boxes|
  {
    Fuller(q.boxes[m.to], m.from, Parcel(q, m))
  }

  /** What a step of the shards does to the queues. */
  function Moved(c: Config, q: Queued, step: Step): seq<Box>
    requires Possible(c, q, Shards(step))
  {
    match step
    case Execute(s, txs) => q.boxes[s := q.boxes[s].(queue := q.boxes[s].queue[|txs|..])]
    case Send(s) => q.boxes[s := KeptBox(c, q, s)]
    case DeliverAccounts(m) => q.boxes[m.to := FullerBox(q, m)]
    case Propose(s, order) => q.boxes[s := Joined(q.boxes[s], order)]
    case Commit(s) => q.boxes[s := Emptied(q.boxes[s])]
    case _ => q.boxes
  }

  function Acted(c: Config, q: Queued, act: Act): Queued
    requires Possible(c, q, act)
  {
    match act
    case Shards(step) =>
      var parcels := if step.Send? then q.parcels + Parcels(c, q.sys.nodes[step.s], step.s, q.boxes[step.s].queue)
                     else q.parcels;
      Queued(Next(c, q.sys, step), Moved(c, q, step), parcels)
    case Inject(s, txs) => q.(boxes := q.boxes[s := q.boxes[s].(queue := q.boxes[s].queue + txs)])
  }

  // ----- Everything belongs where it is -----

  /** As the supervisor flags it: of a transaction with a broker, the sender is one if it says so, and otherwise the
      recipient is. */
  predicate Flagged(brokers: set<Address>, t: Tx) {
    t.hasBroker ==> t.rawTxHash.None? && (if t.senderIsBroker then t.sender in brokers else t.recipient in brokers)
  }

  /** The transactions belong to shard s under the map. */
  ghost predicate AllFit(c: Config, s: nat, pm: PartitionMap, txs: seq<Tx>) {
    && AllBelong(View(s, pm, c.home), txs) && AllWellTyped(txs)
    && forall i :: 0 <= i < |txs| ==> Flagged(c.brokers, txs[i])
  }

  /** The number of rounds of the map that a shard's queue is for: once it has sent, it keeps what it will own. */
  function Rounds(n: Node): nat {
    if n.HasSent() then n.turn + 1 else n.turn
  }

  ghost predicate QueueFits(c: Config, maps: seq<PartitionMap>, k: nat, queue: seq<Tx>, s: nat) {
    k <= |maps| && AllFit(c, s, PmAfter(maps, k), queue)
  }

  ghost predicate AlongFits(c: Config, maps: seq<PartitionMap>, round: nat, received: map<nat, Accounts>,
                            along: map<nat, seq<Tx>>, s: nat) {
    forall t :: t in received ==> OneFits(c, maps, round, if t in along then along[t] else [], s)
  }

  ghost predicate OneFits(c: Config, maps: seq<PartitionMap>, round: nat, txs: seq<Tx>, s: nat) {
    round < |maps| && AllFit(c, s, PmAfter(maps, round + 1), txs)
  }

  ghost predicate BoxFits(c: Config, maps: seq<PartitionMap>, n: Node, box: Box, s: nat) {
    QueueFits(c, maps, Rounds(n), box.queue, s) && AlongFits(c, maps, n.turn, n.received, box.along, s)
  }

  ghost predicate ParcelFits(c: Config, maps: seq<PartitionMap>, m: Msg, txs: seq<Tx>) {
    m.AccountsMsg? ==> OneFits(c, maps, m.tag, txs, m.to)
  }

  ghost predicate InPlace(c: Config, q: Queued) {
    && |q.boxes| == |q.sys.nodes|
    && (forall s :: 0 <= s < |q.boxes| ==> BoxFits(c, q.sys.maps, q.sys.nodes[s], q.boxes[s], s))
    && (forall m :: m in q.sys.net ==> ParcelFits(c, q.sys.maps, m, Parcel(q, m)))
  }

  /** An injection is routed by the map the shard's queue is for. */
  ghost predicate Routed(c: Config, q: Queued, act: Act) {
    act.Inject? && act.s < |q.sys.nodes| && Rounds(q.sys.nodes[act.s]) <= |q.sys.maps| ==>
      AllFit(c, act.s, PmAfter(q.sys.maps, Rounds(q.sys.nodes[act.s])), act.txs)
  }

  lemma FitConcat(c: Config, s: nat, pm: PartitionMap, x: seq<Tx>, y: seq<Tx>)
    ensures AllFit(c, s, pm, x + y) <==> AllFit(c, s, pm, x) && AllFit(c, s, pm, y)
  {
    if AllFit(c, s, pm, x + y) {
      assert forall i :: 0 <= i < |x| ==> (x + y)[i] == x[i];
      assert forall i :: 0 <= i < |y| ==> (x + y)[|x| + i] == y[i];
    }
  }

  lemma {:induction false} AlongsFit(c: Config, s: nat, pm: PartitionMap, box: Box, order: seq<nat>, n: nat)
    requires n <= |order| && forall i :: 0 <= i < |order| ==> AllFit(c, s, pm, Along(box, order[i]))
    ensures AllFit(c, s, pm, Alongs(box, order, n))
  {
    if n > 0 {
      AlongsFit(c, s, pm, box, order, n - 1);
      assert AllFit(c, s, pm, Along(box, order[n - 1]));
      FitConcat(c, s, pm, Alongs(box, order, n - 1), Along(box, order[n - 1]));
      assert Alongs(box, order, n) == Alongs(box, order, n - 1) + Along(box, order[n - 1]);
    }
  }

  /** What is kept and what is sent keeps its types and flags. */
  lemma PartTyped(c: Config, p: Tx -> bool, txs: seq<Tx>)
    requires AllWellTyped(txs) && forall i :: 0 <= i < |txs| ==> Flagged(c.brokers, txs[i])
    ensures AllWellTyped(All(p, txs)) && forall i :: 0 <= i < |All(p, txs)| ==> Flagged(c.brokers, All(p, txs)[i])
  {
    WherePasses(p, txs, |txs|);
  }

  /** One shard's split, in the map that the round leads to. */
  lemma SplitFits(c: Config, r: Round, queue: seq<Tx>, i: nat)
    requires AllFit(c, r.v.self, r.v.pm, queue) && r.v.home == c.home && QueueMigration.Placed(r.modified, c.shardNum)
    ensures AllFit(c, r.v.self, r.Pm(), All(Remains(r, c.shardNum), queue))
    ensures AllFit(c, i, r.Pm(), All(GoesAlong(r, i), queue))
  {
    KeptBelong(r, c.shardNum, queue);
    SentBelong(r, i, queue);
    PartTyped(c, Remains(r, c.shardNum), queue);
    PartTyped(c, GoesAlong(r, i), queue);
  }

  // ----- What the supervisor sends -----

  /** The supervisor deals by the map. */
  ghost predicate DealsBy(c: Config, pm: PartitionMap, b: B.Config) {
    && b.brokers != [] && (forall a :: a in b.brokers <==> a in c.brokers)
    && forall a :: b.home(a) == OwnerOf(pm, c.home, a)
  }

  /** A client's transaction is no half and has no flags yet. */
  predicate Unflagged(t: Tx) {
    !t.hasBroker && t.rawTxHash.None? && t.sender != t.originalSender && t.recipient != t.finalRecipient
  }

  /** Whatever the supervisor makes of a client's transaction fits the shard it sends it to, under its map. */
  lemma DealtFits(c: Config, pm: PartitionMap, b: B.Config, sup: B.Supervisor, t: Tx)
    requires DealsBy(c, pm, b) && Unflagged(t)
    ensures var out := B.Deal(b, sup, t).1;
            AllFit(c, B.ShardFor(b, out), pm, [out])
  {
  }

  /** And so does the second half that follows a reported first half of a transaction between accounts that are no
      brokers, under the map it deals by then. */
  lemma SecondFits(c: Config, pm: PartitionMap, b: B.Config, sup: B.Supervisor, t: Tx)
    requires DealsBy(c, pm, b)
    requires B.Awaited(sup, t) ==>
               sup.confirm1[t.txHash].sender !in c.brokers && sup.confirm1[t.txHash].recipient !in c.brokers
    ensures forall i :: 0 <= i < |B.Confirm(b, sup, t).1| ==>
              AllFit(c, B.ShardFor(b, B.Confirm(b, sup, t).1[i]), pm, [B.Confirm(b, sup, t).1[i]])
  {
  }

  // ----- Every step keeps it so -----

  ghost predicate Fine(c: Config, q: Queued) {
    Sync(c, q.sys) && AllRegular(q.sys) && InPlace(c, q) && forall k :: 0 <= k < |q.sys.maps| ==>
        QueueMigration.Placed(q.sys.maps[k], c.shardNum)
  }

  /** Nothing new goes along. */
  ghost predicate LessInFlight(q: Queued, next: Queued) {
    next.parcels == q.parcels && forall m :: m in next.sys.net && m.AccountsMsg? ==> m in q.sys.net
  }

  lemma StillFits(c: Config, q: Queued, net: set<Msg>)
    requires InPlace(c, q) && forall m :: m in net && m.AccountsMsg? ==> m in q.sys.net
    ensures forall m :: m in net ==> ParcelFits(c, q.sys.maps, m, Parcel(q, m))
  {
    forall m | m in net
      ensures ParcelFits(c, q.sys.maps, m, Parcel(q, m))
    {
      if m.AccountsMsg? {
        assert ParcelFits(c, q.sys.maps, m, Parcel(q, m));
      }
    }
  }

  /** Only shard s, its queue, and what is in flight change. */
  function Changed(q: Queued, s: nat, n: Node, box: Box, net: set<Msg>, parcels: map<Msg, seq<Tx>>): Queued
    requires s < |q.sys.nodes| == |q.boxes|
  {
    Queued(q.sys.(nodes := q.sys.nodes[s := n], net := net), q.boxes[s := box], parcels)
  }

  lemma ChangedInPlace(c: Config, q: Queued, s: nat, n: Node, box: Box, net: set<Msg>, parcels: map<Msg, seq<Tx>>)
    requires InPlace(c, q) && s < |q.boxes| && BoxFits(c, q.sys.maps, n, box, s)
    requires forall m :: m in net ==> ParcelFits(c, q.sys.maps, m, if m in parcels then parcels[m] else [])
    ensures InPlace(c, Changed(q, s, n, box, net, parcels))
  {
  }

  /** A step after which shard s has the queue, the round and the received tables it had. */
  lemma Unmoved(c: Config, q: Queued, next: Queued, s: nat)
    requires InPlace(c, q) && s < |q.boxes| && next.sys.maps == q.sys.maps && |next.sys.nodes| == |q.sys.nodes|
    requires next.boxes == q.boxes && next.sys.nodes == q.sys.nodes[s := next.sys.nodes[s]] && LessInFlight(q, next)
    requires Rounds(next.sys.nodes[s]) == Rounds(q.sys.nodes[s]) && next.sys.nodes[s].turn == q.sys.nodes[s].turn
    requires next.sys.nodes[s].received == q.sys.nodes[s].received
    ensures InPlace(c, next)
  {
    assert BoxFits(c, q.sys.maps, q.sys.nodes[s], q.boxes[s], s);
    StillFits(c, q, next.sys.net);
  }

  lemma PublishInPlace(c: Config, q: Queued, m: PartitionMap)
    requires Fine(c, q) && Possible(c, q, Shards(Publish(m)))
    ensures InPlace(c, Acted(c, q, Shards(Publish(m))))
  {
    var next := Acted(c, q, Shards(Publish(m)));
    forall k: nat | k <= |q.sys.maps|
      ensures PmAfter(next.sys.maps, k) == PmAfter(q.sys.maps, k)
    {
      PmPrefix(q.sys.maps, next.sys.maps, k);
    }
    forall s | 0 <= s < |q.boxes|
      ensures BoxFits(c, next.sys.maps, next.sys.nodes[s], next.boxes[s], s)
    {
      assert BoxFits(c, q.sys.maps, q.sys.nodes[s], q.boxes[s], s);
    }
    forall x | x in next.sys.net
      ensures ParcelFits(c, next.sys.maps, x, Parcel(next, x))
    {
      assert ParcelFits(c, q.sys.maps, x, Parcel(q, x));
    }
  }

  lemma ExecuteInPlace(c: Config, q: Queued, s: nat, txs: seq<Tx>)
    requires Fine(c, q) && Possible(c, q, Shards(Execute(s, txs)))
    ensures InPlace(c, Acted(c, q, Shards(Execute(s, txs))))
  {
    var next := Acted(c, q, Shards(Execute(s, txs)));
    var queue := q.boxes[s].queue;
    assert BoxFits(c, q.sys.maps, q.sys.nodes[s], q.boxes[s], s);
    assert queue == txs + queue[|txs|..];
    FitConcat(c, s, PmAfter(q.sys.maps, Rounds(q.sys.nodes[s])), txs, queue[|txs|..]);
    StillFits(c, q, next.sys.net);
  }

  /** A shard that sends splits its queue by the map of its round. */
  lemma SendRoundIs(c: Config, q: Queued, s: nat)
    requires Fine(c, q) && Possible(c, q, Shards(Send(s)))
    ensures var n := q.sys.nodes[s];
            var r := SendRound(c, n, s);
            && n.turn < |q.sys.maps| && r.Pm() == PmAfter(q.sys.maps, n.turn + 1)
            && AllFit(c, s, r.v.pm, q.boxes[s].queue) && QueueMigration.Placed(r.modified, c.shardNum)
            && Rounds(n.(phase := Sent)) == n.turn + 1
  {
    Known(c, q.sys, s, s);
    assert BoxFits(c, q.sys.maps, q.sys.nodes[s], q.boxes[s], s);
    assert SendRound(c, q.sys.nodes[s], s).modified == q.sys.maps[q.sys.nodes[s].turn];
  }

  /** What goes along fits where it goes. */
  lemma ParcelsFit(c: Config, q: Queued, s: nat, m: Msg)
    requires Fine(c, q) && Possible(c, q, Shards(Send(s))) && m in SentBy(c, q.sys.nodes[s], s)
    ensures ParcelFits(c, q.sys.maps, m, Parcels(c, q.sys.nodes[s], s, q.boxes[s].queue)[m])
  {
    SendRoundIs(c, q, s);
    SplitFits(c, SendRound(c, q.sys.nodes[s], s), q.boxes[s].queue, m.to);
  }

  lemma KeptFits(c: Config, q: Queued, s: nat)
    requires Fine(c, q) && Possible(c, q, Shards(Send(s)))
    ensures BoxFits(c, q.sys.maps, q.sys.nodes[s].(phase := Sent), KeptBox(c, q, s), s)
  {
    SendRoundIs(c, q, s);
    SplitFits(c, SendRound(c, q.sys.nodes[s], s), q.boxes[s].queue, s);
    assert BoxFits(c, q.sys.maps, q.sys.nodes[s], q.boxes[s], s);
  }

  lemma SendInPlace(c: Config, q: Queued, s: nat)
    requires Fine(c, q) && Possible(c, q, Shards(Send(s)))
    ensures var n := q.sys.nodes[s];
            InPlace(c, Changed(q, s, n.(phase := Sent), KeptBox(c, q, s), q.sys.net + SentBy(c, n, s),
                               q.parcels + Parcels(c, n, s, q.boxes[s].queue)))
  {
    var n := q.sys.nodes[s];
    var net, parcels := q.sys.net + SentBy(c, n, s), q.parcels + Parcels(c, n, s, q.boxes[s].queue);
    KeptFits(c, q, s);
    forall m | m in net
      ensures ParcelFits(c, q.sys.maps, m, if m in parcels then parcels[m] else [])
    {
      if m in SentBy(c, n, s) {
        ParcelsFit(c, q, s, m);
      } else {
        assert ParcelFits(c, q.sys.maps, m, Parcel(q, m));
      }
    }
    ChangedInPlace(c, q, s, n.(phase := Sent), KeptBox(c, q, s), net, parcels);
  }

  lemma OneMoreAlong(c: Config, maps: seq<PartitionMap>, round: nat, received: map<nat, Accounts>,
                     along: map<nat, seq<Tx>>, m: Msg, txs: seq<Tx>)
    requires AlongFits(c, maps, round, received, along, m.to) && m.AccountsMsg? && m.tag == round
    requires ParcelFits(c, maps, m, txs)
    ensures AlongFits(c, maps, round, received[m.from := m.accounts], along[m.from := txs], m.to)
  {
  }

  lemma FullerFits(c: Config, maps: seq<PartitionMap>, n: Node, box: Box, m: Msg, txs: seq<Tx>)
    requires BoxFits(c, maps, n, box, m.to) && m.AccountsMsg? && m.tag == n.turn && ParcelFits(c, maps, m, txs)
    ensures BoxFits(c, maps, Collected(c, n, m), Fuller(box, m.from, txs), m.to)
  {
    assert Rounds(Collected(c, n, m)) == Rounds(n);
    OneMoreAlong(c, maps, n.turn, n.received, box.along, m, txs);
  }

  lemma CollectedFits(c: Config, q: Queued, m: Msg)
    requires Fine(c, q) && Possible(c, q, Shards(DeliverAccounts(m)))
    ensures BoxFits(c, q.sys.maps, Collected(c, q.sys.nodes[m.to], m), FullerBox(q, m), m.to)
  {
    assert MsgOk(q.sys.nodes, m) && ParcelFits(c, q.sys.maps, m, Parcel(q, m));
    FullerFits(c, q.sys.maps, q.sys.nodes[m.to], q.boxes[m.to], m, Parcel(q, m));
  }

  lemma CollectInPlace(c: Config, q: Queued, m: Msg)
    requires Fine(c, q) && Possible(c, q, Shards(DeliverAccounts(m)))
    ensures InPlace(c, Changed(q, m.to, Collected(c, q.sys.nodes[m.to], m), FullerBox(q, m), q.sys.net - {m},
                               q.parcels))
  {
    CollectedFits(c, q, m);
    StillFits(c, q, q.sys.net - {m});
    ChangedInPlace(c, q, m.to, Collected(c, q.sys.nodes[m.to], m), FullerBox(q, m), q.sys.net - {m}, q.parcels);
  }

  lemma ProposedFits(c: Config, maps: seq<PartitionMap>, n: Node, box: Box, s: nat, order: seq<nat>)
    requires BoxFits(c, maps, n, box, s) && n.phase == Sent && forall i :: 0 <= i < |order| ==> order[i] in n.received
    ensures AllFit(c, s, PmAfter(maps, n.turn + 1), box.queue + Alongs(box, order, |order|))
  {
    forall i | 0 <= i < |order|
      ensures AllFit(c, s, PmAfter(maps, n.turn + 1), Along(box, order[i]))
    {
      assert order[i] in n.received;
    }
    AlongsFit(c, s, PmAfter(maps, n.turn + 1), box, order, |order|);
    FitConcat(c, s, PmAfter(maps, n.turn + 1), box.queue, Alongs(box, order, |order|));
  }

  lemma JoinedFits(c: Config, maps: seq<PartitionMap>, n: Node, box: Box, s: nat, order: seq<nat>)
    requires BoxFits(c, maps, n, box, s) && n.phase == Sent && n.round < |n.modified|
    requires forall i :: 0 <= i < |order| ==> order[i] in n.received
    ensures BoxFits(c, maps, n.(phase := Proposed(RequestOf(n, order))), Joined(box, order), s)
  {
    ProposedFits(c, maps, n, box, s, order);
  }

  lemma ProposeInPlace(c: Config, q: Queued, s: nat, order: seq<nat>)
    requires Fine(c, q) && Possible(c, q, Shards(Propose(s, order)))
    ensures var n := q.sys.nodes[s].(phase := Proposed(RequestOf(q.sys.nodes[s], order)));
            InPlace(c, Changed(q, s, n, Joined(q.boxes[s], order), q.sys.net, q.parcels))
  {
    var n := q.sys.nodes[s].(phase := Proposed(RequestOf(q.sys.nodes[s], order)));
    assert BoxFits(c, q.sys.maps, q.sys.nodes[s], q.boxes[s], s);
    JoinedFits(c, q.sys.maps, q.sys.nodes[s], q.boxes[s], s, order);
    StillFits(c, q, q.sys.net);
    ChangedInPlace(c, q, s, n, Joined(q.boxes[s], order), q.sys.net, q.parcels);
  }

  lemma CommittedFits(c: Config, maps: seq<PartitionMap>, n: Node, after: Node, box: Box, s: nat)
    requires BoxFits(c, maps, n, box, s) && n.HasSent()
    requires after.turn == n.turn + 1 && after.phase == Normal && after.received == map[]
    ensures BoxFits(c, maps, after, Emptied(box), s)
  {
  }

  lemma CommitInPlace(c: Config, q: Queued, s: nat)
    requires Fine(c, q) && Possible(c, q, Shards(Commit(s)))
    ensures var n := Committed(c, q.sys.nodes[s], s, q.sys.nodes[s].phase.request);
            InPlace(c, Changed(q, s, n, Emptied(q.boxes[s]), q.sys.net, q.parcels))
  {
    var n := Committed(c, q.sys.nodes[s], s, q.sys.nodes[s].phase.request);
    Known(c, q.sys, s, s);
    assert BoxFits(c, q.sys.maps, q.sys.nodes[s], q.boxes[s], s);
    CommittedFits(c, q.sys.maps, q.sys.nodes[s], n, q.boxes[s], s);
    StillFits(c, q, q.sys.net);
    ChangedInPlace(c, q, s, n, Emptied(q.boxes[s]), q.sys.net, q.parcels);
  }

  /** The queue stays in place exactly when what is injected belongs there. */
  lemma InjectExactly(c: Config, q: Queued, s: nat, txs: seq<Tx>)
    requires InPlace(c, q) && s < |q.boxes|
    ensures InPlace(c, Acted(c, q, Inject(s, txs))) <==> Routed(c, q, Inject(s, txs))
  {
    var next := Acted(c, q, Inject(s, txs));
    assert BoxFits(c, q.sys.maps, q.sys.nodes[s], q.boxes[s], s);
    FitConcat(c, s, PmAfter(q.sys.maps, Rounds(q.sys.nodes[s])), q.boxes[s].queue, txs);
    assert BoxFits(c, q.sys.maps, q.sys.nodes[s], next.boxes[s], s) <==> Routed(c, q, Inject(s, txs));
    forall x | x in next.sys.net
      ensures ParcelFits(c, q.sys.maps, x, Parcel(next, x))
    {
      assert ParcelFits(c, q.sys.maps, x, Parcel(q, x));
    }
  }

  lemma StepInPlace(c: Config, q: Queued, step: Step)
    requires Fine(c, q) && Possible(c, q, Shards(step))
    ensures InPlace(c, Acted(c, q, Shards(step)))
  {
    match step
    case Publish(m) => PublishInPlace(c, q, m);
    case Arrive(s) => Unmoved(c, q, Acted(c, q, Shards(step)), s);
    case Execute(s, txs) => ExecuteInPlace(c, q, s, txs);
    case Ready(s) => Unmoved(c, q, Acted(c, q, Shards(step)), s);
    case DeliverReady(m) => Unmoved(c, q, Acted(c, q, Shards(step)), m.to);
    case DeliverSeqID(m) => Unmoved(c, q, Acted(c, q, Shards(step)), m.to);
    case Send(s) => SendInPlace(c, q, s);
    case DeliverAccounts(m) => CollectInPlace(c, q, m);
    case Propose(s, order) => ProposeInPlace(c, q, s, order);
    case Commit(s) => CommitInPlace(c, q, s);
  }

  // ----- Whole runs -----

  ghost function Then(c: Config, q: Queued, act: Act): Queued {
    if Possible(c, q, act) then Acted(c, q, act) else q
  }

  ghost function History(c: Config, acts: seq<Act>, n: nat): Queued
    requires n <= |acts|
  {
    if n == 0 then Queued(Init(c), seq(c.shardNum, _ => Box([], map[])), map[])
    else Then(c, History(c, acts, n - 1), acts[n - 1])
  }

  /** No announcement overtakes a round, and every injection is routed by the map its shard's queue is for. */
  ghost predicate Orderly(c: Config, acts: seq<Act>, n: nat)
    requires n <= |acts|
  {
    n > 0 ==>
      && Orderly(c, acts, n - 1)
      && Routed(c, History(c, acts, n - 1), acts[n - 1])
      && (acts[n - 1].Shards? && Possible(c, History(c, acts, n - 1), acts[n - 1]) ==>
            CalmStep(c, History(c, acts, n - 1).sys, acts[n - 1].step))
  }

  lemma ThenFine(c: Config, q: Queued, act: Act)
    requires Fine(c, q) && Routed(c, q, act)
    requires act.Shards? && Possible(c, q, act) ==> CalmStep(c, q.sys, act.step)
    ensures Fine(c, Then(c, q, act))
  {
    if Possible(c, q, act) {
      if act.Inject? {
        InjectExactly(c, q, act.s, act.txs);
      } else {
        StepInPlace(c, q, act.step);
        NextSync(c, q.sys, act.step);
        NextRegular(c, q.sys, act.step);
      }
    }
  }

  lemma {:induction false} HistoryFine(c: Config, acts: seq<Act>, n: nat)
    requires n <= |acts| && Orderly(c, acts, n)
    ensures Fine(c, History(c, acts, n))
  {
    if n > 0 {
      HistoryFine(c, acts, n - 1);
      ThenFine(c, History(c, acts, n - 1), acts[n - 1]);
    }
  }

  /** A transaction that belongs to the shard, and is flagged, involves besides brokers only its accounts. */
  lemma FitsLocal(c: Config, v: View, t: Tx)
    requires Belongs(v, t) && Flagged(c.brokers, t)
    ensures Local(v, c.brokers, t)
  {
  }

  /** In an orderly run a shard that proposes blocks can take any of what it has queued: the commit phase does not
      panic on it, and it touches no account of another shard but brokers. */
  lemma NeverPanics(c: Config, acts: seq<Act>, n: nat, s: nat, k: nat)
    requires n <= |acts| && Orderly(c, acts, n) && s < c.shardNum
    ensures var q := History(c, acts, n);
            && |q.sys.nodes| == c.shardNum == |q.boxes|
            && (q.sys.nodes[s].phase == Normal && k <= |q.boxes[s].queue| ==>
                  && AllBelong(ViewOf(c, q.sys, s), q.boxes[s].queue[..k])
                  && Possible(c, q, Shards(Execute(s, q.boxes[s].queue[..k]))))
  {
    HistoryFine(c, acts, n);
    var q := History(c, acts, n);
    if q.sys.nodes[s].phase == Normal && k <= |q.boxes[s].queue| {
      Known(c, q.sys, s, s);
      assert BoxFits(c, q.sys.maps, q.sys.nodes[s], q.boxes[s], s);
      var block := q.boxes[s].queue[..k];
      forall i | 0 <= i < |block|
        ensures Belongs(ViewOf(c, q.sys, s), block[i]) && Local(ViewOf(c, q.sys, s), c.brokers, block[i])
      {
        assert block[i] == q.boxes[s].queue[i];
        FitsLocal(c, ViewOf(c, q.sys, s), block[i]);
      }
    }
  }

  /** The supervisor routes a half by the map it has just announced. If it reaches the new owner before the round, the
      first block with it makes the commit phase panic. */
  lemma EarlyHalfPanics(c: Config, t: Tx, late: PartitionMap)
    requires 0 < c.shardNum && Belongs(View(0, late, c.home), t) && !Belongs(View(0, map[], c.home), t)
    requires forall a :: a in late ==> late[a] < c.shardNum
    ensures var acts := [Shards(Publish(late)), Inject(0, [t])];
            var q := History(c, acts, 2);
            && q.sys.maps == [late] && |q.boxes| == |q.sys.nodes| == c.shardNum && q.sys.nodes[0].phase == Normal
            && q.boxes[0].queue == [t] && !AllBelong(ViewOf(c, q.sys, 0), [t])
            && !Routed(c, History(c, acts, 1), acts[1])
  {
    var acts := [Shards(Publish(late)), Inject(0, [t])];
    var q1 := History(c, acts, 1);
    assert q1 == Acted(c, History(c, acts, 0), acts[0]);
    assert History(c, acts, 2) == Acted(c, q1, acts[1]);
    assert [] + [t] == [t];
    assert ViewOf(c, q1.sys, 0) == View(0, map[], c.home);
    assert !Belongs(View(0, map[], c.home), [t][0]);
  }
}
