/** Steps of runs that are written out event by event, for two shards: what one event, or a group of them, makes of a
    supervised system that is known. */
module Walkthroughs {
  import opened Addresses
  import opened Transactions
  import opened Reshardings
  import opened Overtakings

  lemma Two(c: Config)
    requires c.shardNum == 2
    ensures Others(c, 0) == {1} && Others(c, 1) == {0}
    ensures UpTo(0) == {} && UpTo(1) == {0} && UpTo(2) == {0, 1}
  {
  }

  /** What a shard sends to the other. */
  function Gives(c: Config, n: Node, s: nat): Accounts
    requires n.modified != [] && s < 2
  {
    SentTo(c, n, s, 1 - s)
  }

  lemma SendsOne(c: Config, n: Node, s: nat)
    requires c.shardNum == 2 && s < 2 && n.modified != []
    ensures SentBy(c, n, s) == {AccountsMsg(s, 1 - s, n.turn, Gives(c, n, s))}
  {
    Two(c);
  }

  lemma Tells(c: Config, n: Node, s: nat)
    requires c.shardNum == 2 && s < 2
    ensures ReadyMsgs(c, n, s) == {ReadyMsg(s, 1 - s, n.turn, n.sequenceID)}
    ensures SeqIDMsgs(c, n, s) == {SeqIDMsg(s, 1 - s, n.sequenceID)}
  {
    Two(c);
  }

  lemma RequestsOne(n: Node, s: nat, accounts: Accounts)
    requires s < 2 && n.received == map[1 - s := accounts] && n.round < |n.modified|
    ensures RequestOf(n, [1 - s]) == Request(n.modified[n.round], accounts, |n.modified|)
  {
    assert Merged(n.received, [1 - s], 1) == Merged(n.received, [1 - s], 0) + n.received[1 - s];
  }

  // ----- Single events -----

  /** The supervised system when shard s changes, and what is in flight. */
  function Set(a: Supervised, s: nat, n: Node, net: set<Msg>): Supervised
    requires s < |a.sys.nodes|
  {
    a.(sys := a.sys.(nodes := a.sys.nodes[s := n], net := net))
  }

  lemma DoHear(c: Config, events: seq<Event>, n: nat, a: Supervised, m: Msg)
    requires n < |events| && Course(c, events, n) == a && m.to < |a.sys.nodes|
    requires events[n] == Shards(DeliverReady(m)) && m in a.sys.net && m.ReadyMsg?
    ensures Course(c, events, n + 1) == Set(a, m.to, HeardReady(a.sys.nodes[m.to], m), a.sys.net - {m})
  {
  }

  lemma DoSend(c: Config, events: seq<Event>, n: nat, a: Supervised, s: nat)
    requires n < |events| && Course(c, events, n) == a && c.shardNum == 2 && s < 2 == |a.sys.nodes|
    requires events[n] == Shards(Send(s)) && a.sys.nodes[s].phase == Waiting && |a.sys.nodes[s].ready| == 2
    requires a.sys.nodes[s].SeqAgrees() && a.sys.nodes[s].modified != []
    ensures var was := a.sys.nodes[s];
            Course(c, events, n + 1)
            == Set(a, s, was.(phase := Sent), a.sys.net + {AccountsMsg(s, 1 - s, was.turn, Gives(c, was, s))})
  {
    SendsOne(c, a.sys.nodes[s], s);
  }

  lemma DoReady(c: Config, events: seq<Event>, n: nat, a: Supervised, s: nat)
    requires n < |events| && Course(c, events, n) == a && c.shardNum == 2 && s < 2 == |a.sys.nodes|
    requires events[n] == Shards(Ready(s)) && a.sys.nodes[s].phase == Normal && a.sys.nodes[s].partitionOn
    ensures Course(c, events, n + 1)
         == Set(a, s, MadeReady(a.sys.nodes[s], s),
                a.sys.net + {ReadyMsg(s, 1 - s, a.sys.nodes[s].turn, a.sys.nodes[s].sequenceID)})
  {
    Tells(c, a.sys.nodes[s], s);
  }

  lemma DoArrive(c: Config, events: seq<Event>, n: nat, a: Supervised, s: nat)
    requires n < |events| && Course(c, events, n) == a && s < |a.sys.nodes|
    requires events[n] == Shards(Arrive(s)) && a.sys.nodes[s].heard < |a.sys.maps|
    ensures Course(c, events, n + 1)
         == Set(a, s, Arrived(a.sys.nodes[s], a.sys.maps[a.sys.nodes[s].heard]), a.sys.net)
    ensures Overtakes(c, a, events[n]) <==> a.sys.nodes[s].partitionOn
  {
  }

  lemma DoPublish(c: Config, events: seq<Event>, n: nat, a: Supervised, m: PartitionMap)
    requires n < |events| && Course(c, events, n) == a && events[n] == Shards(Publish(m))
    requires a.curEpoch == |a.sys.maps| && forall x :: x in m ==> m[x] < c.shardNum
    ensures Course(c, events, n + 1) == a.(sys := a.sys.(maps := a.sys.maps + [m]))
  {
  }

  lemma DoInfo(c: Config, events: seq<Event>, n: nat, a: Supervised, epoch: nat)
    requires n < |events| && Course(c, events, n) == a && events[n] == BlockInfo(epoch)
    requires epoch in a.reported && epoch == a.curEpoch + 1
    ensures Course(c, events, n + 1) == a.(curEpoch := epoch)
  {
  }

  lemma DoCollect(c: Config, events: seq<Event>, n: nat, a: Supervised, m: Msg)
    requires n < |events| && Course(c, events, n) == a && m.to < |a.sys.nodes|
    requires events[n] == Shards(DeliverAccounts(m)) && m in a.sys.net && m.AccountsMsg?
    ensures Course(c, events, n + 1) == Set(a, m.to, Collected(c, a.sys.nodes[m.to], m), a.sys.net - {m})
  {
  }

  lemma DoPropose(c: Config, events: seq<Event>, n: nat, a: Supervised, s: nat, accounts: Accounts)
    requires n < |events| && Course(c, events, n) == a && s < 2 == |a.sys.nodes|
    requires events[n] == Shards(Propose(s, [1 - s])) && a.sys.nodes[s].phase == Sent && a.sys.nodes[s].collectOver
    requires a.sys.nodes[s].received == map[1 - s := accounts] && a.sys.nodes[s].round < |a.sys.nodes[s].modified|
    ensures var was := a.sys.nodes[s];
            Course(c, events, n + 1)
            == Set(a, s, was.(phase := Proposed(Request(was.modified[was.round], accounts, |was.modified|))), a.sys.net)
  {
    RequestsOne(a.sys.nodes[s], s, accounts);
  }

  lemma DoCommit(c: Config, events: seq<Event>, n: nat, a: Supervised, s: nat)
    requires n < |events| && Course(c, events, n) == a && s < |a.sys.nodes|
    requires events[n] == Shards(Commit(s)) && a.sys.nodes[s].phase.Proposed?
    ensures Course(c, events, n + 1)
         == Set(a, s, Committed(c, a.sys.nodes[s], s, a.sys.nodes[s].phase.request), a.sys.net)
  {
  }

  lemma DoHearSeqID(c: Config, events: seq<Event>, n: nat, a: Supervised, m: Msg)
    requires n < |events| && Course(c, events, n) == a && m.to < |a.sys.nodes|
    requires events[n] == Shards(DeliverSeqID(m)) && m in a.sys.net && m.SeqIDMsg?
    ensures var was := a.sys.nodes[m.to];
            Course(c, events, n + 1) == Set(a, m.to, was.(seqIDMap := was.seqIDMap[m.from := m.seqID]), a.sys.net - {m})
  {
  }

  lemma DoExecute(c: Config, events: seq<Event>, n: nat, a: Supervised, s: nat, txs: seq<Tx>)
    requires n < |events| && Course(c, events, n) == a && c.shardNum == 2 && s < 2 == |a.sys.nodes|
    requires events[n] == Shards(Execute(s, txs)) && a.sys.nodes[s].phase == Normal
    requires forall i :: 0 <= i < |txs| ==> !txs[i].hasBroker
    ensures var was, post := a.sys.nodes[s], Executed(c, a.sys.nodes[s], s, txs);
            Course(c, events, n + 1)
            == Supervised(System(a.sys.nodes[s := was.(state := post, sequenceID := was.sequenceID + 1)],
                                 a.sys.net + {SeqIDMsg(s, 1 - s, was.sequenceID)}, a.sys.maps,
                                 Overlaid(ViewOf(c, a.sys, s), a.sys.truth, was.state, post)),
                          a.reported + {was.round}, a.curEpoch)
  {
    Tells(c, a.sys.nodes[s], s);
  }

  /** An empty block changes a sequence number and nothing else of the accounts. */
  lemma DoEmpty(c: Config, events: seq<Event>, n: nat, a: Supervised, s: nat)
    requires n < |events| && Course(c, events, n) == a && c.shardNum == 2 && s < 2 == |a.sys.nodes|
    requires events[n] == Shards(Execute(s, [])) && a.sys.nodes[s].phase == Normal
    ensures var was := a.sys.nodes[s];
            Course(c, events, n + 1)
            == Supervised(System(a.sys.nodes[s := was.(sequenceID := was.sequenceID + 1)],
                                 a.sys.net + {SeqIDMsg(s, 1 - s, was.sequenceID)}, a.sys.maps, a.sys.truth),
                          a.reported + {was.round}, a.curEpoch)
  {
    DoExecute(c, events, n, a, s, []);
    var st := a.sys.nodes[s].state;
    assert Executed(c, a.sys.nodes[s], s, []) == st;
    assert Overlaid(ViewOf(c, a.sys, s), a.sys.truth, st, st) == a.sys.truth;
  }

  // ----- The end of a round -----

  /** A shard after a round in which it receives the accounts. */
  function Closed(c: Config, was: Node, s: nat, accounts: Accounts): Node
    requires was.round < |was.modified|
  {
    var pm := was.pm + was.modified[was.round];
    Node(FileAccounts(View(s, pm, c.home), was.state, accounts), pm, was.modified, |was.modified|, false, Normal, {},
         map[], false, was.sequenceID + 1, was.seqIDMap, was.readySeq, was.heard, was.turn + 1)
  }

  /** The shard with its request, after they have arrived. */
  function Requested(was: Node, s: nat, accounts: Accounts): Node
    requires was.round < |was.modified| && s < 2
  {
    was.(received := map[1 - s := accounts], collectOver := true,
         phase := Proposed(Request(was.modified[was.round], accounts, |was.modified|)))
  }

  lemma DoRequest(c: Config, events: seq<Event>, n: nat, a: Supervised, s: nat, m: Msg)
    requires n + 2 <= |events| && Course(c, events, n) == a && c.shardNum == 2 && s < 2 == |a.sys.nodes|
    requires m in a.sys.net && m.AccountsMsg? && m.from == 1 - s && m.to == s
    requires events[n] == Shards(DeliverAccounts(m)) && events[n + 1] == Shards(Propose(s, [1 - s]))
    requires a.sys.nodes[s].phase == Sent && a.sys.nodes[s].received == map[]
    requires a.sys.nodes[s].round < |a.sys.nodes[s].modified|
    ensures Course(c, events, n + 2) == Set(a, s, Requested(a.sys.nodes[s], s, m.accounts), a.sys.net - {m})
  {
    var was, net := a.sys.nodes[s], a.sys.net - {m};
    var n1 := was.(received := map[1 - s := m.accounts], collectOver := true);
    DoCollect(c, events, n, a, m);
    assert n1 == Collected(c, was, m) by {
      assert |map[1 - s := m.accounts]| == 1;
    }
    DoPropose(c, events, n + 1, Set(a, s, n1, net), s, m.accounts);
    SetTwice(a, s, n1, Requested(was, s, m.accounts), net);
  }

  predicate Ending(events: seq<Event>, n: nat, s: nat, m: Msg)
    requires n + 3 <= |events| && s < 2
  {
    && events[n] == Shards(DeliverAccounts(m))
    && events[n + 1] == Shards(Propose(s, [1 - s])) && events[n + 2] == Shards(Commit(s))
  }

  /** The last three events of a round. */
  lemma DoClose(c: Config, events: seq<Event>, n: nat, a: Supervised, s: nat, m: Msg)
    requires n + 3 <= |events| && Course(c, events, n) == a && c.shardNum == 2 && s < 2 == |a.sys.nodes|
    requires m in a.sys.net && m.AccountsMsg? && m.from == 1 - s && m.to == s
    requires Ending(events, n, s, m)
    requires a.sys.nodes[s].phase == Sent && a.sys.nodes[s].received == map[]
    requires a.sys.nodes[s].round < |a.sys.nodes[s].modified|
    ensures Course(c, events, n + 3) == Set(a, s, Closed(c, a.sys.nodes[s], s, m.accounts), a.sys.net - {m})
  {
    var was, net := a.sys.nodes[s], a.sys.net - {m};
    DoRequest(c, events, n, a, s, m);
    DoCommit(c, events, n + 2, Set(a, s, Requested(was, s, m.accounts), net), s);
    SetTwice(a, s, Requested(was, s, m.accounts), Closed(c, was, s, m.accounts), net);
    Closes(c, was, s, m.accounts);
  }

  lemma SetTwice(a: Supervised, s: nat, n1: Node, n2: Node, net: set<Msg>)
    requires s < |a.sys.nodes|
    ensures Set(Set(a, s, n1, net), s, n2, net) == Set(a, s, n2, net)
  {
  }

  lemma Closes(c: Config, was: Node, s: nat, accounts: Accounts)
    requires s < 2 && was.round < |was.modified|
    ensures Committed(c, Requested(was, s, accounts), s, Requested(was, s, accounts).phase.request)
         == Closed(c, was, s, accounts)
  {
  }

  // ----- The beginning of a round -----

  function ToldAll(n: Node, m: Msg): Node
    requires m.ReadyMsg?
  {
    HeardReady(n, m).(phase := Sent)
  }

  ghost predicate CanExchange(n: Node, s: nat, m: Msg)
    requires m.ReadyMsg?
  {
    && n.phase == Waiting && n.ready == {s} && n.modified != []
    && forall x :: x in n.seqIDMap ==> x == m.from && n.seqIDMap[x] + 1 == m.seqID
  }

  lemma Hears(n: Node, s: nat, m: Msg)
    requires m.ReadyMsg? && s != m.from && CanExchange(n, s, m)
    ensures |HeardReady(n, m).ready| == 2 && HeardReady(n, m).SeqAgrees()
  {
    assert |{s, m.from}| == 2;
  }

  function Both(a: Supervised, n0: Node, n1: Node, net: set<Msg>): Supervised {
    a.(sys := a.sys.(nodes := [n0, n1], net := net))
  }

  lemma DoHearBoth(c: Config, events: seq<Event>, n: nat, a: Supervised, r0: Msg, r1: Msg)
    requires n + 2 <= |events| && Course(c, events, n) == a && |a.sys.nodes| == 2
    requires r0.ReadyMsg? && r0.from == 0 && r0.to == 1 && r1.ReadyMsg? && r1.from == 1 && r1.to == 0
    requires a.sys.net == {r0, r1} && events[n] == Shards(DeliverReady(r0)) && events[n + 1] == Shards(DeliverReady(r1))
    ensures Course(c, events, n + 2) == Both(a, HeardReady(a.sys.nodes[0], r1), HeardReady(a.sys.nodes[1], r0), {})
  {
    DoHear(c, events, n, a, r0);
    DoHear(c, events, n + 1, Course(c, events, n + 1), r1);
  }

  /** The messages with accounts that two shards send each other. */
  function Gifts(c: Config, n0: Node, n1: Node): set<Msg>
    requires n0.modified != [] && n1.modified != []
  {
    {AccountsMsg(0, 1, n0.turn, Gives(c, n0, 0)), AccountsMsg(1, 0, n1.turn, Gives(c, n1, 1))}
  }

  lemma GiftsSame(c: Config, n0: Node, n1: Node, o0: Node, o1: Node)
    requires n0.modified != [] && n1.modified != []
    requires n0.turn == o0.turn && n0.pm == o0.pm && n0.modified == o0.modified && n0.state == o0.state
    requires n1.turn == o1.turn && n1.pm == o1.pm && n1.modified == o1.modified && n1.state == o1.state
    ensures Gifts(c, n0, n1) == Gifts(c, o0, o1)
  {
  }

  lemma DoSendBoth(c: Config, events: seq<Event>, n: nat, a: Supervised, n0: Node, n1: Node)
    requires c.shardNum == 2 && n + 2 <= |events| && Course(c, events, n) == Both(a, n0, n1, {})
    requires events[n] == Shards(Send(0)) && events[n + 1] == Shards(Send(1))
    requires n0.phase == Waiting && |n0.ready| == 2 && n0.SeqAgrees() && n0.modified != []
    requires n1.phase == Waiting && |n1.ready| == 2 && n1.SeqAgrees() && n1.modified != []
    ensures Course(c, events, n + 2) == Both(a, n0.(phase := Sent), n1.(phase := Sent), Gifts(c, n0, n1))
  {
    DoSend(c, events, n, Both(a, n0, n1, {}), 0);
    DoSend(c, events, n + 1, Course(c, events, n + 1), 1);
  }

  lemma DoArriveBoth(c: Config, events: seq<Event>, n: nat, a: Supervised)
    requires c.shardNum == 2 && n + 2 <= |events| && Course(c, events, n) == a && |a.sys.nodes| == 2 && a.sys.net == {}
    requires events[n] == Shards(Arrive(0)) && events[n + 1] == Shards(Arrive(1))
    requires a.sys.nodes[0].heard < |a.sys.maps| && a.sys.nodes[1].heard < |a.sys.maps|
    ensures Course(c, events, n + 2)
         == Both(a, Arrived(a.sys.nodes[0], a.sys.maps[a.sys.nodes[0].heard]),
                 Arrived(a.sys.nodes[1], a.sys.maps[a.sys.nodes[1].heard]), {})
    ensures !a.sys.nodes[0].partitionOn && !a.sys.nodes[1].partitionOn ==>
              !Overtakes(c, a, events[n]) && !Overtakes(c, Course(c, events, n + 1), events[n + 1])
  {
    DoArrive(c, events, n, a, 0);
    DoArrive(c, events, n + 1, Course(c, events, n + 1), 1);
  }

  function ReadyFrom(n: Node, s: nat): Msg
    requires s < 2
  {
    ReadyMsg(s, 1 - s, n.turn, n.sequenceID)
  }

  lemma DoReadyBoth(c: Config, events: seq<Event>, n: nat, a: Supervised, n0: Node, n1: Node)
    requires c.shardNum == 2 && n + 2 <= |events| && Course(c, events, n) == Both(a, n0, n1, {})
    requires events[n] == Shards(Ready(0)) && events[n + 1] == Shards(Ready(1))
    requires n0.phase == Normal && n0.partitionOn && n1.phase == Normal && n1.partitionOn
    ensures Course(c, events, n + 2)
        == Both(a, MadeReady(n0, 0), MadeReady(n1, 1), {ReadyFrom(n0, 0), ReadyFrom(n1, 1)})
  {
    DoReady(c, events, n, Both(a, n0, n1, {}), 0);
    DoReady(c, events, n + 1, Course(c, events, n + 1), 1);
  }

  /** A shard that has begun a round with the map. */
  function Begun(n: Node, s: nat, late: PartitionMap): Node {
    MadeReady(Arrived(n, late), s)
  }

  /** And sent its accounts. */
  function Opened(n: Node, s: nat, late: PartitionMap, other: Node): Node
    requires s < 2
  {
    ToldAll(Begun(n, s, late), ReadyFrom(other, 1 - s))
  }

  ghost predicate CanOpen(n: Node, s: nat, other: Node, maps: seq<PartitionMap>)
    requires s < 2
  {
    && n.phase == Normal && !n.partitionOn && n.ready == {} && n.heard < |maps|
    && forall x :: x in n.seqIDMap ==> x == 1 - s && n.seqIDMap[x] + 1 == other.sequenceID
  }

  /** The first four events of a round. */
  lemma DoStart(c: Config, events: seq<Event>, n: nat, a: Supervised, n0: Node, n1: Node)
    requires c.shardNum == 2 && n + 4 <= |events| && Course(c, events, n) == Both(a, n0, n1, {})
    requires CanOpen(n0, 0, n1, a.sys.maps) && CanOpen(n1, 1, n0, a.sys.maps)
    requires events[n] == Shards(Arrive(0)) && events[n + 1] == Shards(Arrive(1))
    requires events[n + 2] == Shards(Ready(0)) && events[n + 3] == Shards(Ready(1))
    ensures Course(c, events, n + 4)
         == Both(a, Begun(n0, 0, a.sys.maps[n0.heard]), Begun(n1, 1, a.sys.maps[n1.heard]),
                 {ReadyFrom(n0, 0), ReadyFrom(n1, 1)})
    ensures !Overtakes(c, Course(c, events, n), events[n])
    ensures !Overtakes(c, Course(c, events, n + 1), events[n + 1])
  {
    DoArriveBoth(c, events, n, Both(a, n0, n1, {}));
    DoReadyBoth(c, events, n + 2, a, Arrived(n0, a.sys.maps[n0.heard]), Arrived(n1, a.sys.maps[n1.heard]));
  }

  /** The next four. */
  lemma DoExchange(c: Config, events: seq<Event>, n: nat, a: Supervised, m0: Node, m1: Node, r0: Msg, r1: Msg)
    requires c.shardNum == 2 && n + 4 <= |events| && Course(c, events, n) == Both(a, m0, m1, {r0, r1})
    requires r0.ReadyMsg? && r0.from == 0 && r0.to == 1 && r1.ReadyMsg? && r1.from == 1 && r1.to == 0
    requires CanExchange(m0, 0, r1) && CanExchange(m1, 1, r0)
    requires events[n] == Shards(DeliverReady(r0)) && events[n + 1] == Shards(DeliverReady(r1))
    requires events[n + 2] == Shards(Send(0)) && events[n + 3] == Shards(Send(1))
    ensures Course(c, events, n + 4) == Both(a, ToldAll(m0, r1), ToldAll(m1, r0), Gifts(c, m0, m1))
  {
    DoHearBoth(c, events, n, Both(a, m0, m1, {r0, r1}), r0, r1);
    Hears(m0, 0, r1);
    Hears(m1, 1, r0);
    DoSendBoth(c, events, n + 2, a, HeardReady(m0, r1), HeardReady(m1, r0));
    GiftsSame(c, HeardReady(m0, r1), HeardReady(m1, r0), m0, m1);
  }

  predicate Opening(events: seq<Event>, n: nat, r0: Msg, r1: Msg)
    requires n + 8 <= |events|
  {
    && events[n] == Shards(Arrive(0)) && events[n + 1] == Shards(Arrive(1))
    && events[n + 2] == Shards(Ready(0)) && events[n + 3] == Shards(Ready(1))
    && events[n + 4] == Shards(DeliverReady(r0)) && events[n + 5] == Shards(DeliverReady(r1))
    && events[n + 6] == Shards(Send(0)) && events[n + 7] == Shards(Send(1))
  }

  /** The first eight events of a round, in which no announcement overtakes another. */
  lemma DoOpen(c: Config, events: seq<Event>, n: nat, a: Supervised, n0: Node, n1: Node)
    requires c.shardNum == 2 && n + 8 <= |events| && Course(c, events, n) == Both(a, n0, n1, {})
    requires CanOpen(n0, 0, n1, a.sys.maps) && CanOpen(n1, 1, n0, a.sys.maps)
    requires Opening(events, n, ReadyFrom(n0, 0), ReadyFrom(n1, 1))
    ensures var m0, m1 := a.sys.maps[n0.heard], a.sys.maps[n1.heard];
            Course(c, events, n + 8)
            == Both(a, Opened(n0, 0, m0, n1), Opened(n1, 1, m1, n0), Gifts(c, Begun(n0, 0, m0), Begun(n1, 1, m1)))
    ensures !Overtakes(c, Course(c, events, n), events[n])
    ensures !Overtakes(c, Course(c, events, n + 1), events[n + 1])
  {
    var m0, m1 := a.sys.maps[n0.heard], a.sys.maps[n1.heard];
    DoStart(c, events, n, a, n0, n1);
    DoExchange(c, events, n + 4, a, Begun(n0, 0, m0), Begun(n1, 1, m1), ReadyFrom(n0, 0), ReadyFrom(n1, 1));
  }
}
