/** No transaction is lost or duplicated by re-sharding in broker mode: in every run, whatever announcements overtake
    and however injections are routed, each copy that reached a queue has been executed, has gone back to the
    supervisor, or is in one place. */
module QueueConservation {
  import opened Addresses
  import opened Filters
  import opened Multisets
  import opened Transactions
  import opened QueueMigration
  import opened BrokerQueues
  import opened Reshardings
  import opened QueuedShards

  // ----- Copies in a shard -----

  /** The copies of x among what has come along from the first n shards. */
  function AlongCopies(along: map<nat, seq<Tx>>, n: nat, x: Tx): nat {
    if n == 0 then 0
    else AlongCopies(along, n - 1, x) + if n - 1 in along then Copies(along[n - 1], x) else 0
  }

  /** What has come along counts until it has joined the queue. */
  function InShard(n: Node, box: Box, shardNum: nat, x: Tx): nat {
    Copies(box.queue, x) + if n.phase.Proposed? then 0 else AlongCopies(box.along, shardNum, x)
  }

  lemma {:induction false} OneMoreAlong(along: map<nat, seq<Tx>>, from: nat, txs: seq<Tx>, n: nat, x: Tx)
    requires from !in along
    ensures AlongCopies(along[from := txs], n, x) == AlongCopies(along, n, x) + if from < n then Copies(txs, x) else 0
  {
    if n > 0 {
      OneMoreAlong(along, from, txs, n - 1, x);
    }
  }

  lemma {:induction false} NothingAlong(n: nat, x: Tx)
    ensures AlongCopies(map[], n, x) == 0
  {
    if n > 0 {
      NothingAlong(n - 1, x);
    }
  }

  /** What has come along from the first k shards of a list. */
  function Part(along: map<nat, seq<Tx>>, order: seq<nat>, k: nat): map<nat, seq<Tx>>
    requires k <= |order|
  {
    map t | t in along && t in order[..k] :: along[t]
  }

  lemma PartNext(along: map<nat, seq<Tx>>, order: seq<nat>, k: nat)
    requires 0 < k <= |order| && EachOnce(order) && order[k - 1] in along
    ensures order[k - 1] !in Part(along, order, k - 1)
    ensures Part(along, order, k) == Part(along, order, k - 1)[order[k - 1] := along[order[k - 1]]]
  {
    assert order[..k] == order[..k - 1] + [order[k - 1]];
  }

  /** Joined in any order, what has come along is there once. */
  lemma {:induction false} AlongsAre(box: Box, order: seq<nat>, k: nat, n: nat, x: Tx)
    requires k <= |order| && EachOnce(order) && forall i :: 0 <= i < |order| ==> order[i] in box.along && order[i] < n
    ensures Copies(Alongs(box, order, k), x) == AlongCopies(Part(box.along, order, k), n, x)
  {
    if k == 0 {
      assert Part(box.along, order, 0) == map[];
      NothingAlong(n, x);
    } else {
      var t := order[k - 1];
      AlongsAre(box, order, k - 1, n, x);
      PartNext(box.along, order, k);
      OneMoreAlong(Part(box.along, order, k - 1), t, box.along[t], n, x);
    }
  }

  /** So joining the queue moves every copy. */
  lemma JoinedCopies(box: Box, order: seq<nat>, n: nat, x: Tx)
    requires EachOnce(order) && (forall i :: 0 <= i < |order| ==> order[i] in box.along && order[i] < n)
    requires forall t :: t in box.along ==> t in order
    ensures Copies(Joined(box, order).queue, x) == Copies(box.queue, x) + AlongCopies(box.along, n, x)
  {
    AlongsAre(box, order, |order|, n, x);
    assert order[..|order|] == order;
    assert Part(box.along, order, |order|) == box.along;
  }

  /** The k-th place of a list is where a part of it begins. */
  predicate PartAt(part: seq<Tx>, whole: seq<Tx>, k: nat) {
    k + |part| <= |whole| && whole[k..k + |part|] == part
  }

  ghost predicate WholeIn(part: seq<Tx>, whole: seq<Tx>, from: nat) {
    exists k: nat :: from <= k && PartAt(part, whole, k)
  }

  /** What is a part stays one when the list grows. */
  lemma StillWhole(part: seq<Tx>, whole: seq<Tx>, from: nat, more: seq<Tx>)
    requires WholeIn(part, whole, from)
    ensures WholeIn(part, whole + more, from)
  {
    var k: nat :| from <= k && PartAt(part, whole, k);
    assert (whole + more)[k..k + |part|] == whole[k..k + |part|];
    assert PartAt(part, whole + more, k);
  }

  lemma LastWhole(whole: seq<Tx>, from: nat, last: seq<Tx>)
    requires from <= |whole|
    ensures WholeIn(last, whole + last, from)
  {
    assert PartAt(last, whole + last, |whole|);
  }

  /** Each message's transactions join in one piece, in their order, behind what was queued. */
  lemma {:induction false} AlongsWhole(box: Box, order: seq<nat>, n: nat, i: nat)
    requires i < n <= |order|
    ensures WholeIn(Along(box, order[i]), box.queue + Alongs(box, order, n), |box.queue|)
  {
    var before, last := box.queue + Alongs(box, order, n - 1), Along(box, order[n - 1]);
    assert box.queue + Alongs(box, order, n) == before + last;
    if i == n - 1 {
      LastWhole(before, |box.queue|, last);
    } else {
      AlongsWhole(box, order, n - 1, i);
      StillWhole(Along(box, order[i]), before, |box.queue|, last);
    }
  }

  // ----- Copies in flight -----

  predicate Between(m: Msg, s: nat, t: nat) {
    m.AccountsMsg? && m.from == s && m.to == t
  }

  /** The copies of x on their way from shard s to shard t. */
  ghost function Pouch(net: set<Msg>, parcels: map<Msg, seq<Tx>>, s: nat, t: nat, x: Tx): nat {
    if exists m :: m in net && Between(m, s, t) then
      var m :| m in net && Between(m, s, t);
      if m in parcels then Copies(parcels[m], x) else 0
    else 0
  }

  /** There is at most one such message, so it is the one. */
  lemma PouchOf(net: set<Msg>, parcels: map<Msg, seq<Tx>>, m: Msg, x: Tx)
    requires OneEach(net) && m in net && m.AccountsMsg?
    ensures Pouch(net, parcels, m.from, m.to, x) == if m in parcels then Copies(parcels[m], x) else 0
  {
    assert Between(m, m.from, m.to);
    forall y | y in net && Between(y, m.from, m.to)
      ensures y == m
    {
      assert Alike(m, y);
    }
  }

  lemma PouchSame(net: set<Msg>, parcels: map<Msg, seq<Tx>>, net': set<Msg>, parcels': map<Msg, seq<Tx>>, s: nat,
                  t: nat, x: Tx)
    requires OneEach(net) && OneEach(net') && forall m :: Between(m, s, t) ==> (m in net <==> m in net')
    requires forall m :: Between(m, s, t) && m in net ==> (m in parcels <==> m in parcels')
    requires forall m :: Between(m, s, t) && m in net && m in parcels ==> parcels[m] == parcels'[m]
    ensures Pouch(net', parcels', s, t, x) == Pouch(net, parcels, s, t, x)
  {
    if m :| m in net && Between(m, s, t) {
      PouchOf(net, parcels, m, x);
      PouchOf(net', parcels', m, x);
    }
  }

  lemma PouchEmpty(net: set<Msg>, parcels: map<Msg, seq<Tx>>, s: nat, t: nat, x: Tx)
    requires forall m :: m in net ==> !Between(m, s, t)
    ensures Pouch(net, parcels, s, t, x) == 0
  {
  }

  /** The copies on their way from shard s, by receiver. */
  ghost function Out(net: set<Msg>, parcels: map<Msg, seq<Tx>>, s: nat, n: nat, x: Tx): seq<int> {
    seq(n, t requires 0 <= t < n => Pouch(net, parcels, s, t, x))
  }

  // ----- All copies -----

  /** The copies in a shard and on their way from it. */
  ghost function AtShard(c: Config, q: Queued, s: nat, x: Tx): int
    requires s < |q.sys.nodes| == |q.boxes|
  {
    InShard(q.sys.nodes[s], q.boxes[s], c.shardNum, x) + Plus(Out(q.sys.net, q.parcels, s, c.shardNum, x))
  }

  ghost function AtShards(c: Config, q: Queued, x: Tx): seq<int>
    requires |q.sys.nodes| == |q.boxes|
  {
    seq(|q.boxes|, s requires 0 <= s < |q.boxes| => AtShard(c, q, s, x))
  }

  ghost function Everywhere(c: Config, q: Queued, x: Tx): int
    requires |q.sys.nodes| == |q.boxes|
  {
    Plus(AtShards(c, q, x))
  }

  /** A shard has the accounts of those whose transactions have come along. */
  ghost predicate SameKeys(q: Queued) {
    && |q.boxes| == |q.sys.nodes|
    && forall s :: 0 <= s < |q.boxes| ==> q.boxes[s].along.Keys == q.sys.nodes[s].received.Keys
  }

  ghost predicate Kept(c: Config, q: Queued) {
    Sync(c, q.sys) && SameKeys(q)
  }

  /** What is on its way from shard s does not change. */
  ghost predicate SameFlight(q: Queued, next: Queued, s: nat) {
    forall m: Msg :: m.AccountsMsg? && m.from == s ==>
      && (m in q.sys.net <==> m in next.sys.net)
      && (m in q.sys.net ==> (m in q.parcels <==> m in next.parcels))
      && (m in q.sys.net && m in q.parcels ==> q.parcels[m] == next.parcels[m])
  }

  lemma OutSame(c: Config, q: Queued, next: Queued, s: nat, x: Tx)
    requires Kept(c, q) && Kept(c, next) && SameFlight(q, next, s)
    ensures Out(next.sys.net, next.parcels, s, c.shardNum, x) == Out(q.sys.net, q.parcels, s, c.shardNum, x)
  {
    forall t: nat
      ensures Pouch(next.sys.net, next.parcels, s, t, x) == Pouch(q.sys.net, q.parcels, s, t, x)
    {
      PouchSame(q.sys.net, q.parcels, next.sys.net, next.parcels, s, t, x);
    }
  }

  /** Two shards change, or one. */
  lemma TwoChange(c: Config, q: Queued, next: Queued, s: nat, t: nat, ds: int, dt: int, x: Tx)
    requires |q.boxes| == |q.sys.nodes| == |next.boxes| == |next.sys.nodes| && s < |q.boxes| && t < |q.boxes|
    requires forall u: nat :: u < |q.boxes| ==>
               AtShard(c, next, u, x) == AtShard(c, q, u, x) + (if u == s then ds else 0) + if u == t then dt else 0
    ensures Everywhere(c, next, x) == Everywhere(c, q, x) + ds + dt
  {
    PlusBumped(AtShards(c, q, x), AtShards(c, next, x), |q.boxes|, s, ds, t, dt);
  }

  /** A shard of which nothing that counts changes. */
  ghost predicate SameShard(q: Queued, next: Queued, u: nat)
    requires |q.boxes| == |q.sys.nodes| == |next.boxes| == |next.sys.nodes| && u < |q.boxes|
  {
    && next.boxes[u] == q.boxes[u] && (next.sys.nodes[u].phase.Proposed? <==> q.sys.nodes[u].phase.Proposed?)
    && SameFlight(q, next, u)
  }

  lemma SameShardSame(c: Config, q: Queued, next: Queued, u: nat, x: Tx)
    requires Kept(c, q) && Kept(c, next) && |q.boxes| == |next.boxes| && u < |q.boxes| && SameShard(q, next, u)
    ensures AtShard(c, next, u, x) == AtShard(c, q, u, x)
  {
    OutSame(c, q, next, u, x);
  }

  /** Only shard s changes, and nothing that is on its way. */
  lemma OneChanges(c: Config, q: Queued, next: Queued, s: nat, x: Tx)
    requires Kept(c, q) && Kept(c, next) && |q.boxes| == |next.boxes| && s < |q.boxes|
    requires forall u: nat :: u < |q.boxes| ==> if u == s then SameFlight(q, next, u) else SameShard(q, next, u)
    ensures Everywhere(c, next, x)
         == Everywhere(c, q, x) + InShard(next.sys.nodes[s], next.boxes[s], c.shardNum, x)
                                - InShard(q.sys.nodes[s], q.boxes[s], c.shardNum, x)
  {
    forall u: nat | u < |q.boxes| && u != s
      ensures AtShard(c, next, u, x) == AtShard(c, q, u, x)
    {
      SameShardSame(c, q, next, u, x);
    }
    OutSame(c, q, next, s, x);
    TwoChange(c, q, next, s, s, AtShard(c, next, s, x) - AtShard(c, q, s, x), 0, x);
  }

  // ----- Every step -----

  /** What a step adds to the queues, and what it takes out of them for good: what it executes, and what it reports to
      the supervisor. */
  function Added(act: Act): seq<Tx> {
    if act.Inject? then act.txs else []
  }

  ghost function Taken(c: Config, q: Queued, act: Act): seq<Tx>
    requires Possible(c, q, act)
  {
    match act
    case Inject(_, _) => []
    case Shards(step) =>
      match step
      case Execute(_, txs) => txs
      case Send(s) => Crossed(SendRound(c, q.sys.nodes[s], s), q.boxes[s].queue, c.shardNum)
      case _ => []
  }

  lemma StepKept(c: Config, q: Queued, act: Act)
    requires Kept(c, q) && Possible(c, q, act)
    ensures Kept(c, Acted(c, q, act))
  {
    if act.Shards? {
      NextSync(c, q.sys, act.step);
      KeysKept(c, q, act.step);
    }
  }

  lemma KeysCollected(c: Config, q: Queued, m: Msg)
    requires SameKeys(q) && Possible(c, q, Shards(DeliverAccounts(m)))
    ensures SameKeys(Acted(c, q, Shards(DeliverAccounts(m))))
  {
    var n, box := q.sys.nodes[m.to], q.boxes[m.to];
    assert box.along.Keys == n.received.Keys;
    assert Fuller(box, m.from, Parcel(q, m)).along.Keys == box.along.Keys + {m.from};
    assert Collected(c, n, m).received.Keys == n.received.Keys + {m.from};
  }

  lemma KeysUnmoved(c: Config, q: Queued, step: Step)
    requires SameKeys(q) && Possible(c, q, Shards(step)) && !step.DeliverAccounts? && !step.Commit?
    ensures SameKeys(Acted(c, q, Shards(step)))
  {
  }

  lemma KeysKept(c: Config, q: Queued, step: Step)
    requires SameKeys(q) && Possible(c, q, Shards(step))
    ensures SameKeys(Acted(c, q, Shards(step)))
  {
    match step
    case DeliverAccounts(m) => KeysCollected(c, q, m);
    case Commit(_) =>
    case _ => KeysUnmoved(c, q, step);
  }

  /** The balance of one step. */
  ghost predicate Balanced(c: Config, q: Queued, act: Act, x: Tx)
    requires Kept(c, q) && Possible(c, q, act)
  {
    var next := Acted(c, q, act);
    && |next.boxes| == |next.sys.nodes|
    && Everywhere(c, next, x) + Copies(Taken(c, q, act), x) == Everywhere(c, q, x) + Copies(Added(act), x)
  }

  /** No message with accounts is sent or delivered. */
  lemma FlightsSame(q: Queued, next: Queued)
    requires next.parcels == q.parcels && forall m: Msg :: m.AccountsMsg? ==> (m in q.sys.net <==> m in next.sys.net)
    ensures forall u: nat :: SameFlight(q, next, u)
  {
  }

  /** Steps that touch no queue, and start or end no proposal. */
  predicate Quiet(step: Step) {
    step.Publish? || step.Arrive? || step.Ready? || step.DeliverReady? || step.DeliverSeqID?
  }

  lemma QuietNet(c: Config, q: Queued, step: Step)
    requires Possible(c, q, Shards(step)) && Quiet(step)
    ensures forall m: Msg :: m.AccountsMsg? ==> (m in q.sys.net <==> m in Acted(c, q, Shards(step)).sys.net)
  {
  }

  lemma QuietSame(c: Config, q: Queued, step: Step)
    requires Kept(c, q) && Possible(c, q, Shards(step)) && Quiet(step)
    ensures var next := Acted(c, q, Shards(step));
            && |next.boxes| == |next.sys.nodes| == |q.boxes|
            && forall u: nat :: u < |q.boxes| ==> SameShard(q, next, u)
  {
    QuietNet(c, q, step);
    FlightsSame(q, Acted(c, q, Shards(step)));
  }

  lemma QuietBalanced(c: Config, q: Queued, step: Step, x: Tx)
    requires Kept(c, q) && Possible(c, q, Shards(step)) && Quiet(step)
    ensures Balanced(c, q, Shards(step), x)
  {
    StepKept(c, q, Shards(step));
    var next := Acted(c, q, Shards(step));
    QuietSame(c, q, step);
    forall u: nat | u < |q.boxes|
      ensures AtShard(c, next, u, x) == AtShard(c, q, u, x)
    {
      SameShardSame(c, q, next, u, x);
    }
    assert AtShards(c, next, x) == AtShards(c, q, x);
  }

  /** A step of one shard that neither sends nor collects. */
  predicate LocalAt(act: Act, s: nat) {
    match act
    case Inject(t, _) => t == s
    case Shards(step) => step == Commit(s) || ((step.Execute? || step.Propose?) && step.s == s)
  }

  lemma LocalNet(c: Config, q: Queued, act: Act, s: nat)
    requires Possible(c, q, act) && LocalAt(act, s)
    ensures Acted(c, q, act).parcels == q.parcels
    ensures forall m: Msg :: m.AccountsMsg? ==> (m in q.sys.net <==> m in Acted(c, q, act).sys.net)
  {
  }

  lemma LocalNodes(c: Config, q: Queued, act: Act, s: nat)
    requires Kept(c, q) && Possible(c, q, act) && LocalAt(act, s)
    ensures var next := Acted(c, q, act);
            && s < |next.boxes| == |next.sys.nodes| == |q.boxes|
            && forall u: nat :: u < |q.boxes| && u != s ==>
                 next.boxes[u] == q.boxes[u] && next.sys.nodes[u] == q.sys.nodes[u]
  {
  }

  lemma LocalSame(c: Config, q: Queued, act: Act, s: nat)
    requires Kept(c, q) && Possible(c, q, act) && LocalAt(act, s)
    ensures var next := Acted(c, q, act);
            && s < |next.boxes| == |next.sys.nodes| == |q.boxes|
            && forall u: nat :: u < |q.boxes| ==> if u == s then SameFlight(q, next, u) else SameShard(q, next, u)
  {
    LocalNet(c, q, act, s);
    LocalNodes(c, q, act, s);
    FlightsSame(q, Acted(c, q, act));
  }

  /** What such a step does is what it does to its shard. */
  lemma LocalBalanced(c: Config, q: Queued, act: Act, s: nat, x: Tx)
    requires Kept(c, q) && Possible(c, q, act) && LocalAt(act, s)
    requires s < |Acted(c, q, act).boxes| && s < |Acted(c, q, act).sys.nodes| && s < |q.boxes|
    requires InShard(Acted(c, q, act).sys.nodes[s], Acted(c, q, act).boxes[s], c.shardNum, x)
             + Copies(Taken(c, q, act), x)
             == InShard(q.sys.nodes[s], q.boxes[s], c.shardNum, x) + Copies(Added(act), x)
    ensures Balanced(c, q, act, x)
  {
    StepKept(c, q, act);
    LocalSame(c, q, act, s);
    OneChanges(c, q, Acted(c, q, act), s, x);
  }

  lemma InjectBalanced(c: Config, q: Queued, s: nat, txs: seq<Tx>, x: Tx)
    requires Kept(c, q) && Possible(c, q, Inject(s, txs))
    ensures Balanced(c, q, Inject(s, txs), x)
  {
    LocalBalanced(c, q, Inject(s, txs), s, x);
  }

  lemma ExecuteBalanced(c: Config, q: Queued, s: nat, txs: seq<Tx>, x: Tx)
    requires Kept(c, q) && Possible(c, q, Shards(Execute(s, txs)))
    ensures Balanced(c, q, Shards(Execute(s, txs)), x)
  {
    assert q.boxes[s].queue == txs + q.boxes[s].queue[|txs|..];
    LocalBalanced(c, q, Shards(Execute(s, txs)), s, x);
  }

  lemma OrderOfSenders(c: Config, q: Queued, s: nat, order: seq<nat>)
    requires Kept(c, q) && Possible(c, q, Shards(Propose(s, order)))
    ensures EachOnce(order) && !q.sys.nodes[s].phase.Proposed?
    ensures forall i :: 0 <= i < |order| ==> order[i] in q.boxes[s].along && order[i] < c.shardNum
    ensures forall t :: t in q.boxes[s].along ==> t in order
  {
    assert NodeOk(c, q.sys.nodes[s], s) && q.boxes[s].along.Keys == q.sys.nodes[s].received.Keys;
    forall i | 0 <= i < |order|
      ensures order[i] in q.boxes[s].along && order[i] < c.shardNum
    {
      assert order[i] in q.sys.nodes[s].received;
      assert order[i] in Others(c, s);
    }
    forall t | t in q.boxes[s].along
      ensures t in order
    {
      assert t in q.sys.nodes[s].received;
    }
  }

  lemma ProposeBalanced(c: Config, q: Queued, s: nat, order: seq<nat>, x: Tx)
    requires Kept(c, q) && Possible(c, q, Shards(Propose(s, order)))
    ensures Balanced(c, q, Shards(Propose(s, order)), x)
  {
    OrderOfSenders(c, q, s, order);
    JoinedCopies(q.boxes[s], order, c.shardNum, x);
    LocalBalanced(c, q, Shards(Propose(s, order)), s, x);
  }

  lemma CommitBalanced(c: Config, q: Queued, s: nat, x: Tx)
    requires Kept(c, q) && Possible(c, q, Shards(Commit(s)))
    ensures Balanced(c, q, Shards(Commit(s)), x)
  {
    NothingAlong(c.shardNum, x);
    LocalBalanced(c, q, Shards(Commit(s)), s, x);
  }

  // ----- Sending -----

  /** Nothing is on its way from a shard that is about to send. */
  lemma NothingOut(c: Config, q: Queued, s: nat, x: Tx)
    requires Kept(c, q) && Possible(c, q, Shards(Send(s)))
    ensures forall m :: m in q.sys.net && m.AccountsMsg? && m.from == s ==> m.to == s
    ensures Plus(Out(q.sys.net, q.parcels, s, c.shardNum, x)) == 0
  {
    forall m | m in q.sys.net && m.AccountsMsg? && m.from == s
      ensures false
    {
      assert MsgOk(q.sys.nodes, m);
      assert m.to in Others(c, s);
      SentMsgOk(c, q.sys, s, AccountsMsg(s, m.to, q.sys.nodes[s].turn, map[]));
    }
    forall t: nat
      ensures Pouch(q.sys.net, q.parcels, s, t, x) == 0
    {
      PouchEmpty(q.sys.net, q.parcels, s, t, x);
    }
    PlusZeros(Out(q.sys.net, q.parcels, s, c.shardNum, x), c.shardNum);
  }

  /** Afterwards there is to each shard what goes along there. */
  lemma SentOut(c: Config, q: Queued, s: nat, t: nat, x: Tx)
    requires Kept(c, q) && Possible(c, q, Shards(Send(s))) && t < c.shardNum
    ensures var next := Acted(c, q, Shards(Send(s)));
            Pouch(next.sys.net, next.parcels, s, t, x)
            == Copies(All(GoesAlong(SendRound(c, q.sys.nodes[s], s), t), q.boxes[s].queue), x)
  {
    StepKept(c, q, Shards(Send(s)));
    var n := q.sys.nodes[s];
    var next := Acted(c, q, Shards(Send(s)));
    if t == s {
      NothingOut(c, q, s, x);
      NothingToOneself(SendRound(c, n, s), q.boxes[s].queue);
      PouchToOneself(c, next, s, x);
    } else {
      var m := AccountsMsg(s, t, n.turn, SentTo(c, n, s, t));
      assert t in Others(c, s);
      assert m in SentBy(c, n, s);
      PouchOf(next.sys.net, next.parcels, m, x);
    }
  }

  lemma PouchToOneself(c: Config, q: Queued, s: nat, x: Tx)
    requires Kept(c, q)
    ensures Pouch(q.sys.net, q.parcels, s, s, x) == 0
  {
    forall m | m in q.sys.net
      ensures !Between(m, s, s)
    {
      assert MsgOk(q.sys.nodes, m);
    }
    PouchEmpty(q.sys.net, q.parcels, s, s, x);
  }

  lemma SendBalanced(c: Config, q: Queued, s: nat, x: Tx)
    requires Kept(c, q) && Possible(c, q, Shards(Send(s)))
    ensures Balanced(c, q, Shards(Send(s)), x)
  {
    var next := Acted(c, q, Shards(Send(s)));
    StepKept(c, q, Shards(Send(s)));
    SentSplit(c, q, s, x);
    SendElsewhere(c, q, s);
    forall u: nat | u < |q.boxes| && u != s
      ensures AtShard(c, next, u, x) == AtShard(c, q, u, x)
    {
      SameShardSame(c, q, next, u, x);
    }
    TwoChange(c, q, next, s, s, AtShard(c, next, s, x) - AtShard(c, q, s, x), 0, x);
  }

  lemma SentRow(c: Config, q: Queued, s: nat, x: Tx)
    requires Kept(c, q) && Possible(c, q, Shards(Send(s)))
    ensures var next := Acted(c, q, Shards(Send(s)));
            Plus(Out(next.sys.net, next.parcels, s, c.shardNum, x))
            == Plus(SentAlong(SendRound(c, q.sys.nodes[s], s), q.boxes[s].queue, c.shardNum, x))
  {
    var next := Acted(c, q, Shards(Send(s)));
    forall t: nat | t < c.shardNum {
      SentOut(c, q, s, t, x);
    }
    var out: seq<int> := SentAlong(SendRound(c, q.sys.nodes[s], s), q.boxes[s].queue, c.shardNum, x);
    assert Out(next.sys.net, next.parcels, s, c.shardNum, x) == out;
  }

  lemma KeptCopies(c: Config, q: Queued, s: nat, x: Tx)
    requires Kept(c, q) && Possible(c, q, Shards(Send(s)))
    ensures var next := Acted(c, q, Shards(Send(s)));
            && s < |next.boxes| == |next.sys.nodes|
            && InShard(next.sys.nodes[s], next.boxes[s], c.shardNum, x) + Copies(q.boxes[s].queue, x)
               == InShard(q.sys.nodes[s], q.boxes[s], c.shardNum, x)
                  + Copies(All(Remains(SendRound(c, q.sys.nodes[s], s), c.shardNum), q.boxes[s].queue), x)
  {
  }

  /** The sender's queue is split into what it keeps, what goes along, and what is reported. */
  lemma SentSplit(c: Config, q: Queued, s: nat, x: Tx)
    requires Kept(c, q) && Possible(c, q, Shards(Send(s)))
    ensures var next := Acted(c, q, Shards(Send(s)));
            && s < |next.boxes| == |next.sys.nodes|
            && AtShard(c, next, s, x) + Copies(Taken(c, q, Shards(Send(s))), x) == AtShard(c, q, s, x)
  {
    NothingOut(c, q, s, x);
    SentRow(c, q, s, x);
    KeptCopies(c, q, s, x);
    BrokerQueueSplit(SendRound(c, q.sys.nodes[s], s), q.boxes[s].queue, c.shardNum, x);
  }

  lemma SendElsewhere(c: Config, q: Queued, s: nat)
    requires Kept(c, q) && Possible(c, q, Shards(Send(s)))
    ensures var next := Acted(c, q, Shards(Send(s)));
            && |next.boxes| == |next.sys.nodes| == |q.boxes|
            && forall u: nat :: u < |q.boxes| && u != s ==> SameShard(q, next, u)
  {
  }

  // ----- Collecting -----

  /** After a delivery nothing is on its way between the two shards, and what is on its way elsewhere is the same. */
  lemma CollectedPouches(c: Config, q: Queued, m: Msg, t: nat, x: Tx)
    requires Kept(c, q) && Possible(c, q, Shards(DeliverAccounts(m)))
    ensures var net := q.sys.net - {m};
            Pouch(net, q.parcels, m.from, t, x)
            == if t == m.to then 0 else Pouch(q.sys.net, q.parcels, m.from, t, x)
  {
    var net := q.sys.net - {m};
    if t == m.to {
      forall y | y in net
        ensures !Between(y, m.from, m.to)
      {
        assert Between(y, m.from, m.to) ==> Alike(m, y);
      }
      PouchEmpty(net, q.parcels, m.from, m.to, x);
    } else {
      PouchSame(q.sys.net, q.parcels, net, q.parcels, m.from, t, x);
    }
  }

  /** A message moves from the way to the receiver. */
  lemma CollectedOut(c: Config, q: Queued, m: Msg, x: Tx)
    requires Kept(c, q) && Possible(c, q, Shards(DeliverAccounts(m))) && m.to < c.shardNum
    ensures Plus(Out(q.sys.net - {m}, q.parcels, m.from, c.shardNum, x)) + Copies(Parcel(q, m), x)
         == Plus(Out(q.sys.net, q.parcels, m.from, c.shardNum, x))
  {
    var before := Out(q.sys.net, q.parcels, m.from, c.shardNum, x);
    var after := Out(q.sys.net - {m}, q.parcels, m.from, c.shardNum, x);
    var k: int := Copies(Parcel(q, m), x);
    PouchOf(q.sys.net, q.parcels, m, x);
    forall t: nat | t < c.shardNum
      ensures after[t] == before[t] + if t == m.to then -k else 0
    {
      CollectedPouches(c, q, m, t, x);
    }
    PlusBumped(before, after, c.shardNum, m.to, -k, m.to, 0);
  }

  /** The receiver has nothing of the sender yet, and has not proposed. */
  lemma NotYet(c: Config, q: Queued, m: Msg)
    requires Kept(c, q) && Possible(c, q, Shards(DeliverAccounts(m)))
    ensures m.from !in q.boxes[m.to].along && !q.sys.nodes[m.to].phase.Proposed? && m.from < c.shardNum
  {
    assert MsgOk(q.sys.nodes, m);
    assert NodeOk(c, q.sys.nodes[m.to], m.to);
    assert q.boxes[m.to].along.Keys == q.sys.nodes[m.to].received.Keys;
    assert m.from in Others(c, m.to);
  }

  lemma FullerCopies(n: Node, next: Node, box: Box, from: nat, txs: seq<Tx>, k: nat, x: Tx)
    requires from !in box.along && from < k && !n.phase.Proposed? && !next.phase.Proposed?
    ensures InShard(next, Fuller(box, from, txs), k, x) == InShard(n, box, k, x) + Copies(txs, x)
  {
    OneMoreAlong(box.along, from, txs, k, x);
  }

  lemma CollectedIn(c: Config, q: Queued, m: Msg, x: Tx)
    requires Kept(c, q) && Possible(c, q, Shards(DeliverAccounts(m)))
    ensures var next := Acted(c, q, Shards(DeliverAccounts(m)));
            InShard(next.sys.nodes[m.to], next.boxes[m.to], c.shardNum, x)
            == InShard(q.sys.nodes[m.to], q.boxes[m.to], c.shardNum, x) + Copies(Parcel(q, m), x)
  {
    NotYet(c, q, m);
    var n := q.sys.nodes[m.to];
    FullerCopies(n, Collected(c, n, m), q.boxes[m.to], m.from, Parcel(q, m), c.shardNum, x);
  }

  lemma FlightsBut(q: Queued, next: Queued, m: Msg)
    requires next.parcels == q.parcels && next.sys.net == q.sys.net - {m} && m.AccountsMsg?
    ensures forall u: nat :: u != m.from ==> SameFlight(q, next, u)
  {
  }

  lemma CollectElsewhere(c: Config, q: Queued, m: Msg)
    requires Kept(c, q) && Possible(c, q, Shards(DeliverAccounts(m)))
    ensures var next := Acted(c, q, Shards(DeliverAccounts(m)));
            && |next.boxes| == |next.sys.nodes| == |q.boxes|
            && next.parcels == q.parcels && next.sys.net == q.sys.net - {m}
            && m.from != m.to && m.from < |q.boxes| && m.to < |q.boxes|
            && forall u: nat :: u < |q.boxes| && u != m.to ==>
                 next.boxes[u] == q.boxes[u] && next.sys.nodes[u] == q.sys.nodes[u]
  {
    assert MsgOk(q.sys.nodes, m);
  }

  lemma CollectBalanced(c: Config, q: Queued, m: Msg, x: Tx)
    requires Kept(c, q) && Possible(c, q, Shards(DeliverAccounts(m)))
    ensures Balanced(c, q, Shards(DeliverAccounts(m)), x)
  {
    var next := Acted(c, q, Shards(DeliverAccounts(m)));
    var k: int := Copies(Parcel(q, m), x);
    StepKept(c, q, Shards(DeliverAccounts(m)));
    CollectElsewhere(c, q, m);
    FlightsBut(q, next, m);
    CollectedOut(c, q, m, x);
    CollectedIn(c, q, m, x);
    forall u: nat | u < |q.boxes| && u != m.from
      ensures Out(next.sys.net, next.parcels, u, c.shardNum, x) == Out(q.sys.net, q.parcels, u, c.shardNum, x)
    {
      OutSame(c, q, next, u, x);
    }
    TwoChange(c, q, next, m.from, m.to, -k, k, x);
  }

  /** In every step, what was there and what came is what is there and what went. */
  lemma StepBalanced(c: Config, q: Queued, act: Act, x: Tx)
    requires Kept(c, q) && Possible(c, q, act)
    ensures Balanced(c, q, act, x)
  {
    match act
    case Inject(s, txs) => InjectBalanced(c, q, s, txs, x);
    case Shards(step) =>
      match step
      case Execute(s, txs) => ExecuteBalanced(c, q, s, txs, x);
      case Send(s) => SendBalanced(c, q, s, x);
      case DeliverAccounts(m) => CollectBalanced(c, q, m, x);
      case Propose(s, order) => ProposeBalanced(c, q, s, order, x);
      case Commit(s) => CommitBalanced(c, q, s, x);
      case _ => QuietBalanced(c, q, step, x);
  }

  // ----- Every run -----

  /** The copies of x injected in the first n steps, and those executed or reported back. */
  ghost function Come(c: Config, acts: seq<Act>, n: nat, x: Tx): nat
    requires n <= |acts|
  {
    if n == 0 then 0
    else Come(c, acts, n - 1, x)
         + if Possible(c, History(c, acts, n - 1), acts[n - 1]) then Copies(Added(acts[n - 1]), x) else 0
  }

  ghost function Gone(c: Config, acts: seq<Act>, n: nat, x: Tx): nat
    requires n <= |acts|
  {
    if n == 0 then 0
    else Gone(c, acts, n - 1, x)
         + if Possible(c, History(c, acts, n - 1), acts[n - 1])
           then Copies(Taken(c, History(c, acts, n - 1), acts[n - 1]), x) else 0
  }

  lemma StartKept(c: Config, x: Tx)
    ensures var q := Queued(Init(c), seq(c.shardNum, _ => Box([], map[])), map[]);
            Kept(c, q) && Everywhere(c, q, x) == 0
  {
    var q := Queued(Init(c), seq(c.shardNum, _ => Box([], map[])), map[]);
    NothingAlong(c.shardNum, x);
    forall s: nat | s < c.shardNum
      ensures AtShard(c, q, s, x) == 0
    {
      PlusZeros(Out({}, map[], s, c.shardNum, x), c.shardNum);
    }
    PlusZeros(AtShards(c, q, x), c.shardNum);
  }

  /** In every run each copy of a transaction that has reached a queue has been executed, has become cross-shard and
      gone back to the supervisor, or is queued, waits with received accounts, or travels with accounts, in one
      place. */
  lemma {:induction false} EveryCopyKept(c: Config, acts: seq<Act>, n: nat, x: Tx)
    requires n <= |acts|
    ensures Kept(c, History(c, acts, n))
    ensures Come(c, acts, n, x) == Gone(c, acts, n, x) + Everywhere(c, History(c, acts, n), x)
  {
    if n == 0 {
      StartKept(c, x);
    } else {
      EveryCopyKept(c, acts, n - 1, x);
      var q, act := History(c, acts, n - 1), acts[n - 1];
      if Possible(c, q, act) {
        StepKept(c, q, act);
        StepBalanced(c, q, act, x);
      }
    }
  }
}
