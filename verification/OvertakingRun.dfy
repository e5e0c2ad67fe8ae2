/** Two runs of two shards under the supervisor that announces on the first report. In the first, the announcement that
    overtakes a round moves an account, which then has two owners, one of which reads a state that is not the
    account's. In the second it changes nothing at all, and a later one moves the account to a shard that performs the
    announcements one round later, so that its state is lost. */
module OvertakingRuns {
  import opened Addresses
  import opened Transactions
  import opened Reshardings
  import opened ReshardingViews
  import opened Overtakings
  import opened Exchanges
  import opened Walkthroughs

  /** Two shards; a payment between two accounts of shard 1; and an announcement that moves its recipient. */
  ghost predicate Fits(c: Config, t: Tx) {
    && c.shardNum == 2 && Into(c.home, 2) && t.recipient !in c.brokers
    && !t.relayed && !t.hasBroker && 0 < t.value <= INIT_BALANCE && t.sender != t.recipient
    && c.home(t.sender) == 1 && c.home(t.recipient) == 1
  }

  function Late(t: Tx): PartitionMap {
    map[t.recipient := 0]
  }

  const NOTHING: PartitionMap := map[]

  /** The second and the third announcement; the others are empty. */
  datatype Plot = Plot(second: PartitionMap, third: PartitionMap)

  ghost predicate Told(c: Config, t: Tx, p: Plot) {
    Fits(c, t) && (p.second == NOTHING || p.second == Late(t)) && (p.third == NOTHING || p.third == Late(t))
  }

  /** Nothing leaves a shard whose last announcement is empty, or puts its accounts on the shard itself. */
  lemma GivesNothing(c: Config, n: Node, s: nat)
    requires n.modified != [] && s < 2
    requires var last := n.modified[|n.modified| - 1];
             forall a :: a in last ==> last[a] == s
    ensures Gives(c, n, s) == map[]
  {
    var last := n.modified[|n.modified| - 1];
    forall a
      ensures a !in Gives(c, n, s)
    {
      assert a in last ==> last[a] == s;
    }
  }

  // ----- The shards -----

  /** A shard that has sent nothing in the first round. */
  function First(s: nat): Node
    requires s < 2
  {
    Node(map[], map[], [NOTHING], 0, true, Sent, {0, 1}, map[], false, 1, map[], map[1 - s := 1], 1, 0)
  }

  /** Shard 0 when it has gone through the first round, with its next sequence number. */
  function Second(next: nat): Node {
    Node(map[], map[], [NOTHING], 1, false, Normal, {}, map[], false, next, map[], map[1 := 1], 1, 1)
  }

  /** Shard 1 when it has closed the overtaken round, with the state and the sequence number it goes on with. */
  function Skipping(p: Plot, state: Trie, next: nat): Node {
    Node(state, map[], [NOTHING, p.second], 2, false, Normal, {}, map[], false, next, map[], map[0 := 1], 2, 1)
  }

  /** The payment, at shard 1. */
  function Paid(c: Config, t: Tx): Trie {
    ExecTxs(View(1, map[], c.home), map[], [t], 1)
  }

  lemma PaidIs(c: Config, t: Tx)
    requires Fits(c, t)
    ensures Overlaid(View(1, map[], c.home), map[], map[], Paid(c, t)) == Paid(c, t)
    ensures Balance(Paid(c, t), t.recipient) == INIT_BALANCE + t.value
  {
    var v := View(1, map[], c.home);
    assert ExecTxs(v, map[], [t], 1) == ExecTx(v, ExecTxs(v, map[], [t], 0), t, 0);
  }

  /** The shards before the second exchange. */
  function Before0(): Node {
    Second(3).(seqIDMap := map[1 := 2])
  }

  function Before1(c: Config, t: Tx, p: Plot): Node {
    Skipping(p, Paid(c, t), 3).(seqIDMap := map[0 := 2])
  }

  /** What they send each other then. */
  function Gift0(c: Config, p: Plot): Accounts {
    Gives(c, Begun(Before0(), 0, p.second), 0)
  }

  function Gift1(c: Config, t: Tx, p: Plot): Accounts {
    Gives(c, Begun(Before1(c, t, p), 1, p.third), 1)
  }

  function Open0(p: Plot): Node {
    Node(map[], map[], [NOTHING, p.second], 1, true, Sent, {0, 1}, map[], false, 3, map[1 := 2], map[1 := 3], 2, 1)
  }

  function Open1(c: Config, t: Tx, p: Plot): Node {
    Node(Paid(c, t), map[], [NOTHING, p.second, p.third], 2, true, Sent, {0, 1}, map[], false, 3, map[0 := 2],
         map[0 := 3], 3, 1)
  }

  lemma OpenedAre(c: Config, t: Tx, p: Plot)
    ensures Opened(Before0(), 0, p.second, Before1(c, t, p)) == Open0(p)
    ensures Opened(Before1(c, t, p), 1, p.third, Before0()) == Open1(c, t, p)
  {
  }

  /** And after it. */
  function Last0(c: Config, t: Tx, p: Plot): Node {
    Closed(c, Open0(p), 0, Gift1(c, t, p))
  }

  function Last1(c: Config, t: Tx, p: Plot): Node {
    Closed(c, Open1(c, t, p), 1, Gift0(c, p))
  }

  // ----- The system -----

  /** The supervised system with what the two shards, the network, the announcements and the ledger are. */
  function Is(n0: Node, n1: Node, net: set<Msg>, maps: seq<PartitionMap>, truth: Trie, reported: set<nat>,
              curEpoch: nat)
    : Supervised
  {
    Supervised(System([n0, n1], net, maps, truth), reported, curEpoch)
  }

  predicate Part1(events: seq<Event>, n: nat) {
    && n + 9 <= |events| && events[n] == Shards(Publish(NOTHING))
    && Opening(events, n + 1, ReadyMsg(0, 1, 0, 1), ReadyMsg(1, 0, 0, 1))
  }

  function After1(): Supervised {
    Is(First(0), First(1), {AccountsMsg(0, 1, 0, map[]), AccountsMsg(1, 0, 0, map[])}, [NOTHING], map[], {}, 0)
  }

  /** Both shards are in their first round and have sent each other nothing. */
  lemma Part1Done(c: Config, events: seq<Event>, n: nat)
    requires c.shardNum == 2 && Part1(events, n) && Course(c, events, n) == Supervised(Init(c), {}, 0)
    ensures Course(c, events, n + 9) == After1()
  {
    var a := Is(Start(), Start(), {}, [NOTHING], map[], {}, 0);
    assert Init(c).nodes == [Start(), Start()];
    DoPublish(c, events, n, Supervised(Init(c), {}, 0), NOTHING);
    DoOpen(c, events, n + 1, a, Start(), Start());
    assert Opened(Start(), 0, NOTHING, Start()) == First(0) && Opened(Start(), 1, NOTHING, Start()) == First(1);
    GivesNothing(c, Begun(Start(), 0, NOTHING), 0);
    GivesNothing(c, Begun(Start(), 1, NOTHING), 1);
  }

  function After2(): Supervised {
    Is(Second(2), First(1), {AccountsMsg(0, 1, 0, map[])}, [NOTHING], map[], {}, 0)
  }

  /** Shard 0 finishes the round. */
  lemma Part2Done(c: Config, events: seq<Event>, n: nat)
    requires c.shardNum == 2 && n + 3 <= |events| && Ending(events, n, 0, AccountsMsg(1, 0, 0, map[]))
    requires Course(c, events, n) == After1()
    ensures Course(c, events, n + 3) == After2()
  {
    DoClose(c, events, n, After1(), 0, AccountsMsg(1, 0, 0, map[]));
    assert Closed(c, First(0), 0, map[]) == Second(2);
  }

  predicate Part3(events: seq<Event>, n: nat, p: Plot) {
    && n + 3 <= |events| && events[n] == Shards(Execute(0, [])) && events[n + 1] == BlockInfo(1)
    && events[n + 2] == Shards(Publish(p.second))
  }

  function After3(p: Plot): Supervised {
    Is(Second(3), First(1), {AccountsMsg(0, 1, 0, map[]), SeqIDMsg(0, 1, 2)}, [NOTHING, p.second], map[], {1}, 1)
  }

  /** It reports, and the second announcement is made. */
  lemma Part3Done(c: Config, t: Tx, p: Plot, events: seq<Event>, n: nat)
    requires Told(c, t, p) && Part3(events, n, p) && Course(c, events, n) == After2()
    ensures Course(c, events, n + 3) == After3(p)
  {
    DoEmpty(c, events, n, After2(), 0);
    var b := Is(Second(3), First(1), {AccountsMsg(0, 1, 0, map[]), SeqIDMsg(0, 1, 2)}, [NOTHING], map[], {1}, 0);
    assert Course(c, events, n + 1) == b;
    DoInfo(c, events, n + 1, b, 1);
    DoPublish(c, events, n + 2, b.(curEpoch := 1), p.second);
  }

  predicate Part4(events: seq<Event>, n: nat) {
    && n + 4 <= |events| && events[n] == Shards(Arrive(1))
    && Ending(events, n + 1, 1, AccountsMsg(0, 1, 0, map[]))
  }

  function After4(p: Plot): Supervised {
    Is(Second(3), Skipping(p, map[], 2), {SeqIDMsg(0, 1, 2)}, [NOTHING, p.second], map[], {1}, 1)
  }

  /** The announcement overtakes the round at shard 1, which closes it. */
  lemma Part4Done(c: Config, p: Plot, events: seq<Event>, n: nat)
    requires c.shardNum == 2 && Part4(events, n) && Course(c, events, n) == After3(p)
    ensures Overtakes(c, After3(p), events[n])
    ensures Course(c, events, n + 4) == After4(p)
  {
    var m, late := AccountsMsg(0, 1, 0, map[]), Arrived(First(1), p.second);
    DoArrive(c, events, n, After3(p), 1);
    var b := Is(Second(3), late, {m, SeqIDMsg(0, 1, 2)}, [NOTHING, p.second], map[], {1}, 1);
    assert Course(c, events, n + 1) == b;
    DoClose(c, events, n + 1, b, 1, m);
    assert Closed(c, late, 1, map[]) == Skipping(p, map[], 2);
  }

  predicate Part5(events: seq<Event>, n: nat, t: Tx, p: Plot) {
    && n + 3 <= |events| && events[n] == Shards(Execute(1, [t])) && events[n + 1] == BlockInfo(2)
    && events[n + 2] == Shards(Publish(p.third))
  }

  function After5(c: Config, t: Tx, p: Plot): Supervised {
    Is(Second(3), Skipping(p, Paid(c, t), 3), {SeqIDMsg(0, 1, 2), SeqIDMsg(1, 0, 2)}, [NOTHING, p.second, p.third],
       Paid(c, t), {1, 2}, 2)
  }

  /** Shard 1 makes the payment and reports the epoch it has skipped. */
  lemma Part5Done(c: Config, t: Tx, p: Plot, events: seq<Event>, n: nat)
    requires Told(c, t, p) && Part5(events, n, t, p) && Course(c, events, n) == After4(p)
    ensures Course(c, events, n + 3) == After5(c, t, p)
  {
    PaymentDone(c, t, p, events, n);
    DoInfo(c, events, n + 1, AfterPayment(c, t, p), 2);
    DoPublish(c, events, n + 2, AfterPayment(c, t, p).(curEpoch := 2), p.third);
  }

  function AfterPayment(c: Config, t: Tx, p: Plot): Supervised {
    Is(Second(3), Skipping(p, Paid(c, t), 3), {SeqIDMsg(0, 1, 2), SeqIDMsg(1, 0, 2)}, [NOTHING, p.second],
       Paid(c, t), {1, 2}, 1)
  }

  lemma PaymentDone(c: Config, t: Tx, p: Plot, events: seq<Event>, n: nat)
    requires Told(c, t, p) && Part5(events, n, t, p) && Course(c, events, n) == After4(p)
    ensures Course(c, events, n + 1) == AfterPayment(c, t, p)
  {
    PaidIs(c, t);
    DoExecute(c, events, n, After4(p), 1, [t]);
    assert Executed(c, Skipping(p, map[], 2), 1, [t]) == Paid(c, t);
  }

  predicate Part6(events: seq<Event>, n: nat, seqID: nat) {
    && n + 2 <= |events|
    && events[n] == Shards(DeliverSeqID(SeqIDMsg(0, 1, seqID)))
    && events[n + 1] == Shards(DeliverSeqID(SeqIDMsg(1, 0, seqID)))
  }

  /** Both hear of each other's blocks. */
  lemma DoHearSeqIDs(c: Config, events: seq<Event>, n: nat, a: Supervised, n0: Node, n1: Node, seqID: nat)
    requires Part6(events, n, seqID)
    requires Course(c, events, n) == Both(a, n0, n1, {SeqIDMsg(0, 1, seqID), SeqIDMsg(1, 0, seqID)})
    ensures Course(c, events, n + 2)
         == Both(a, n0.(seqIDMap := n0.seqIDMap[1 := seqID]), n1.(seqIDMap := n1.seqIDMap[0 := seqID]), {})
  {
    var b := Both(a, n0, n1, {SeqIDMsg(0, 1, seqID), SeqIDMsg(1, 0, seqID)});
    DoHearSeqID(c, events, n, b, SeqIDMsg(0, 1, seqID));
    DoHearSeqID(c, events, n + 1, Set(b, 1, n1.(seqIDMap := n1.seqIDMap[0 := seqID]), {SeqIDMsg(1, 0, seqID)}),
                SeqIDMsg(1, 0, seqID));
  }

  function After6(c: Config, t: Tx, p: Plot): Supervised {
    Is(Before0(), Before1(c, t, p), {}, [NOTHING, p.second, p.third], Paid(c, t), {1, 2}, 2)
  }

  function After7(c: Config, t: Tx, p: Plot): Supervised {
    Is(Open0(p), Open1(c, t, p), {AccountsMsg(0, 1, 1, Gift0(c, p)), AccountsMsg(1, 0, 1, Gift1(c, t, p))},
       [NOTHING, p.second, p.third], Paid(c, t), {1, 2}, 2)
  }

  /** Shard 0 in its second round and shard 1, one announcement ahead, take each other for partners. */
  lemma Part7Done(c: Config, t: Tx, p: Plot, events: seq<Event>, n: nat)
    requires c.shardNum == 2 && n + 8 <= |events| && Opening(events, n, ReadyMsg(0, 1, 1, 3), ReadyMsg(1, 0, 1, 3))
    requires Course(c, events, n) == After6(c, t, p)
    ensures Course(c, events, n + 8) == After7(c, t, p)
    ensures !Overtakes(c, Course(c, events, n), events[n])
    ensures !Overtakes(c, Course(c, events, n + 1), events[n + 1])
  {
    DoOpen(c, events, n, After6(c, t, p), Before0(), Before1(c, t, p));
    OpenedAre(c, t, p);
  }

  function After9(c: Config, t: Tx, p: Plot): Supervised {
    Is(Last0(c, t, p), Last1(c, t, p), {}, [NOTHING, p.second, p.third], Paid(c, t), {1, 2}, 2)
  }

  /** Two shards close their round, shard 0 first. */
  lemma DoCloseBoth(c: Config, events: seq<Event>, n: nat, a: Supervised, n0: Node, n1: Node, turn: nat, g0: Accounts,
                    g1: Accounts)
    requires c.shardNum == 2 && n + 6 <= |events|
    requires Course(c, events, n) == Both(a, n0, n1, {AccountsMsg(0, 1, turn, g0), AccountsMsg(1, 0, turn, g1)})
    requires Ending(events, n, 0, AccountsMsg(1, 0, turn, g1)) && Ending(events, n + 3, 1, AccountsMsg(0, 1, turn, g0))
    requires n0.phase == Sent && n0.received == map[] && n0.round < |n0.modified|
    requires n1.phase == Sent && n1.received == map[] && n1.round < |n1.modified|
    ensures Course(c, events, n + 6) == Both(a, Closed(c, n0, 0, g1), Closed(c, n1, 1, g0), {})
  {
    DoCloseFirst(c, events, n, a, n0, n1, AccountsMsg(0, 1, turn, g0), AccountsMsg(1, 0, turn, g1));
    DoCloseSecond(c, events, n + 3, a, Closed(c, n0, 0, g1), n1, AccountsMsg(0, 1, turn, g0));
  }

  lemma DoCloseFirst(c: Config, events: seq<Event>, n: nat, a: Supervised, n0: Node, n1: Node, m0: Msg, m1: Msg)
    requires c.shardNum == 2 && n + 3 <= |events| && Course(c, events, n) == Both(a, n0, n1, {m0, m1})
    requires m1.AccountsMsg? && m1.from == 1 && m1.to == 0 && m0 != m1 && Ending(events, n, 0, m1)
    requires n0.phase == Sent && n0.received == map[] && n0.round < |n0.modified|
    ensures Course(c, events, n + 3) == Both(a, Closed(c, n0, 0, m1.accounts), n1, {m0})
  {
    DoClose(c, events, n, Both(a, n0, n1, {m0, m1}), 0, m1);
    assert {m0, m1} - {m1} == {m0};
  }

  lemma DoCloseSecond(c: Config, events: seq<Event>, n: nat, a: Supervised, n0: Node, n1: Node, m0: Msg)
    requires c.shardNum == 2 && n + 3 <= |events| && Course(c, events, n) == Both(a, n0, n1, {m0})
    requires m0.AccountsMsg? && m0.from == 0 && m0.to == 1 && Ending(events, n, 1, m0)
    requires n1.phase == Sent && n1.received == map[] && n1.round < |n1.modified|
    ensures Course(c, events, n + 3) == Both(a, n0, Closed(c, n1, 1, m0.accounts), {})
  {
    DoClose(c, events, n, Both(a, n0, n1, {m0}), 1, m0);
  }

  /** The first round, with the announcement that overtakes it. */
  predicate FirstHalf(events: seq<Event>, n: nat, p: Plot) {
    && n + 19 <= |events| && Part1(events, n) && Ending(events, n + 9, 0, AccountsMsg(1, 0, 0, map[]))
    && Part3(events, n + 12, p) && Part4(events, n + 15)
  }

  lemma FirstHalfDone(c: Config, t: Tx, p: Plot, events: seq<Event>, n: nat)
    requires Told(c, t, p) && FirstHalf(events, n, p) && Course(c, events, n) == Supervised(Init(c), {}, 0)
    ensures Course(c, events, n + 15) == After3(p) && Overtakes(c, After3(p), events[n + 15])
    ensures Course(c, events, n + 19) == After4(p)
  {
    Part1Done(c, events, n);
    Part2Done(c, events, n + 9);
    Part3Done(c, t, p, events, n + 12);
    Part4Done(c, p, events, n + 15);
  }

  /** The second. */
  predicate SecondHalf(c: Config, events: seq<Event>, n: nat, t: Tx, p: Plot) {
    && n + 19 <= |events| && Part5(events, n, t, p) && Part6(events, n + 3, 2)
    && Opening(events, n + 5, ReadyMsg(0, 1, 1, 3), ReadyMsg(1, 0, 1, 3))
    && Ending(events, n + 13, 0, AccountsMsg(1, 0, 1, Gift1(c, t, p)))
    && Ending(events, n + 16, 1, AccountsMsg(0, 1, 1, Gift0(c, p)))
  }

  lemma SecondHalfDone(c: Config, t: Tx, p: Plot, events: seq<Event>, n: nat)
    requires Told(c, t, p) && SecondHalf(c, events, n, t, p) && Course(c, events, n) == After4(p)
    ensures Course(c, events, n + 19) == After9(c, t, p)
    ensures !Overtakes(c, Course(c, events, n + 5), events[n + 5])
    ensures !Overtakes(c, Course(c, events, n + 6), events[n + 6])
  {
    Part5Done(c, t, p, events, n);
    DoHearSeqIDs(c, events, n + 3, After5(c, t, p), Second(3), Skipping(p, Paid(c, t), 3), 2);
    Part7Done(c, t, p, events, n + 5);
    DoCloseBoth(c, events, n + 13, After7(c, t, p), Open0(p), Open1(c, t, p), 1, Gift0(c, p), Gift1(c, t, p));
  }

  function EventAt(c: Config, i: nat, t: Tx, p: Plot): Event {
    match i
    case 0 => Shards(Publish(NOTHING))
    case 1 => Shards(Arrive(0))
    case 2 => Shards(Arrive(1))
    case 3 => Shards(Ready(0))
    case 4 => Shards(Ready(1))
    case 5 => Shards(DeliverReady(ReadyMsg(0, 1, 0, 1)))
    case 6 => Shards(DeliverReady(ReadyMsg(1, 0, 0, 1)))
    case 7 => Shards(Send(0))
    case 8 => Shards(Send(1))
    case 9 => Shards(DeliverAccounts(AccountsMsg(1, 0, 0, map[])))
    case 10 => Shards(Propose(0, [1]))
    case 11 => Shards(Commit(0))
    case 12 => Shards(Execute(0, []))
    case 13 => BlockInfo(1)
    case 14 => Shards(Publish(p.second))
    case 15 => Shards(Arrive(1))
    case 16 => Shards(DeliverAccounts(AccountsMsg(0, 1, 0, map[])))
    case 17 => Shards(Propose(1, [0]))
    case 18 => Shards(Commit(1))
    case 19 => Shards(Execute(1, [t]))
    case 20 => BlockInfo(2)
    case 21 => Shards(Publish(p.third))
    case 22 => Shards(DeliverSeqID(SeqIDMsg(0, 1, 2)))
    case 23 => Shards(DeliverSeqID(SeqIDMsg(1, 0, 2)))
    case 24 => Shards(Arrive(0))
    case 25 => Shards(Arrive(1))
    case 26 => Shards(Ready(0))
    case 27 => Shards(Ready(1))
    case 28 => Shards(DeliverReady(ReadyMsg(0, 1, 1, 3)))
    case 29 => Shards(DeliverReady(ReadyMsg(1, 0, 1, 3)))
    case 30 => Shards(Send(0))
    case 31 => Shards(Send(1))
    case 32 => Shards(DeliverAccounts(AccountsMsg(1, 0, 1, Gift1(c, t, p))))
    case 33 => Shards(Propose(0, [1]))
    case 34 => Shards(Commit(0))
    case 35 => Shards(DeliverAccounts(AccountsMsg(0, 1, 1, Gift0(c, p))))
    case 36 => Shards(Propose(1, [0]))
    case _ => Shards(Commit(1))
  }

  /** Both shards go through a round, of which shard 0 finishes first and reports. The next announcement overtakes the
      round at shard 1, which skips it and reports its epoch all the same. The third announcement frees shard 0 to
      go through the second round, with shard 1 in the round of the third. */
  function Story(c: Config, t: Tx, p: Plot): (events: seq<Event>)
    ensures |events| == 38 && forall i :: 0 <= i < 38 ==> events[i] == EventAt(c, i, t, p)
  {
    seq(38, i requires 0 <= i < 38 => EventAt(c, i, t, p))
  }

  lemma StoryFirst(c: Config, t: Tx, p: Plot, events: seq<Event>)
    requires |events| >= 19 && forall i :: 0 <= i < 19 ==> events[i] == EventAt(c, i, t, p)
    ensures FirstHalf(events, 0, p)
  {
  }

  lemma StorySecond(c: Config, t: Tx, p: Plot, events: seq<Event>)
    requires |events| >= 38 && forall i :: 19 <= i < 38 ==> events[i] == EventAt(c, i, t, p)
    ensures SecondHalf(c, events, 19, t, p)
  {
    StoryPays(c, t, p, events);
    StoryOpens(c, t, p, events);
    StoryEnds(c, t, p, events, 32, 0, AccountsMsg(1, 0, 1, Gift1(c, t, p)));
    StoryEnds(c, t, p, events, 35, 1, AccountsMsg(0, 1, 1, Gift0(c, p)));
  }

  lemma StoryPays(c: Config, t: Tx, p: Plot, events: seq<Event>)
    requires |events| >= 24 && forall i :: 19 <= i < 24 ==> events[i] == EventAt(c, i, t, p)
    ensures Part5(events, 19, t, p) && Part6(events, 22, 2)
  {
  }

  lemma StoryOpens(c: Config, t: Tx, p: Plot, events: seq<Event>)
    requires |events| >= 32 && forall i :: 24 <= i < 32 ==> events[i] == EventAt(c, i, t, p)
    ensures Opening(events, 24, ReadyMsg(0, 1, 1, 3), ReadyMsg(1, 0, 1, 3))
  {
  }

  lemma StoryEnds(c: Config, t: Tx, p: Plot, events: seq<Event>, n: nat, s: nat, m: Msg)
    requires s < 2 && n + 3 <= |events| && forall i :: n <= i < n + 3 ==> events[i] == EventAt(c, i, t, p)
    requires EventAt(c, n, t, p) == Shards(DeliverAccounts(m)) && EventAt(c, n + 1, t, p) == Shards(Propose(s, [1 - s]))
    requires EventAt(c, n + 2, t, p) == Shards(Commit(s))
    ensures Ending(events, n, s, m)
  {
  }

  lemma StoryTold(c: Config, t: Tx, p: Plot, events: seq<Event>, n: nat)
    requires Told(c, t, p) && n + 38 <= |events| && FirstHalf(events, n, p) && SecondHalf(c, events, n + 19, t, p)
    requires Course(c, events, n) == Supervised(Init(c), {}, 0)
    ensures Course(c, events, n + 15) == After3(p) && Overtakes(c, After3(p), events[n + 15])
    ensures Course(c, events, n + 38) == After9(c, t, p)
    ensures !Overtakes(c, Course(c, events, n + 24), events[n + 24])
    ensures !Overtakes(c, Course(c, events, n + 25), events[n + 25])
  {
    FirstHalfDone(c, t, p, events, n);
    SecondHalfDone(c, t, p, events, n + 19);
  }

  // ----- An announcement that moves the account is skipped -----

  lemma TwoOwnersAre(c: Config, t: Tx)
    requires Fits(c, t)
    ensures var p := Plot(Late(t), NOTHING);
            var sys := After9(c, t, p).sys;
            && sys.nodes[0].pm == Late(t) && sys.nodes[1].pm == NOTHING && sys.nodes[0].state == map[]
            && UpToDate(c, sys, 0) && !UpToDate(c, sys, 1)
  {
    var p := Plot(Late(t), NOTHING);
    GivesNothing(c, Begun(Before0(), 0, p.second), 0);
    GivesNothing(c, Begun(Before1(c, t, p), 1, p.third), 1);
    var sys := After9(c, t, p).sys;
    assert PmAfter(sys.maps, 1) == PmAfter(sys.maps, 0) + NOTHING == NOTHING;
    assert PmAfter(sys.maps, 2) == PmAfter(sys.maps, 1) + Late(t) == Late(t);
    assert PmAfter(sys.maps, 3) == PmAfter(sys.maps, 2) + NOTHING;
    assert OwnerOf(PmAfter(sys.maps, 3), c.home, t.recipient) == 0;
  }

  /** At the end no round is open, and the recipient of the payment has two owners: shard 1, which has skipped the
      announcement that moves it, and shard 0, which never received it and reads the initial balance. */
  lemma TwoOwners(c: Config, t: Tx)
    requires Fits(c, t)
    ensures var events := Story(c, t, Plot(Late(t), NOTHING));
            var sys := SysAt(c, events, |events|);
            && |sys.nodes| == 2 && sys.net == {} && sys.nodes[0].phase == Normal && sys.nodes[1].phase == Normal
            && !sys.nodes[0].partitionOn && !sys.nodes[1].partitionOn
            && ViewOf(c, sys, 0).Owns(t.recipient) && ViewOf(c, sys, 1).Owns(t.recipient)
            && Balance(sys.truth, t.recipient) == INIT_BALANCE + t.value
            && Balance(sys.nodes[0].state, t.recipient) == INIT_BALANCE
            && !Same(sys.nodes[0].state, sys.truth, t.recipient)
            && UpToDate(c, sys, 0) && !UpToDate(c, sys, 1)
  {
    var p := Plot(Late(t), NOTHING);
    StoryFirst(c, t, p, Story(c, t, p));
    StorySecond(c, t, p, Story(c, t, p));
    StoryTold(c, t, p, Story(c, t, p), 0);
    TwoOwnersAre(c, t);
    PaidIs(c, t);
  }

  // ----- An announcement that changes nothing is skipped -----

  function Quietly(t: Tx): Plot {
    Plot(NOTHING, Late(t))
  }

  /** The shards after the second exchange, with the next sequence number and the last reported one. */
  function Rests0(next: nat, reported: nat): Node {
    Node(map[], NOTHING, [NOTHING, NOTHING], 2, false, Normal, {}, map[], false, next, map[1 := reported], map[1 := 3],
         2, 2)
  }

  function Rests1(c: Config, t: Tx, next: nat, reported: nat): Node {
    Node(Paid(c, t), Late(t), [NOTHING, NOTHING, Late(t)], 3, false, Normal, {}, map[], false, next,
         map[0 := reported], map[0 := 3], 3, 2)
  }

  lemma LastAre(c: Config, t: Tx)
    requires Fits(c, t)
    ensures Last0(c, t, Quietly(t)) == Rests0(4, 2) && Last1(c, t, Quietly(t)) == Rests1(c, t, 4, 2)
  {
    var p := Quietly(t);
    GivesNothing(c, Begun(Before0(), 0, p.second), 0);
    FilesOwn(c, View(0, NOTHING, c.home), map[], Gift1(c, t, p), t.recipient);
    assert FileAccounts(View(1, Late(t), c.home), Paid(c, t), map[]) == Paid(c, t);
  }

  /** What shard 1 sends is the recipient's account, which shard 0 does not own. */
  lemma FilesOwn(c: Config, v: View, st: Trie, accounts: Accounts, x: Address)
    requires !v.Owns(x) && forall a :: a in accounts ==> a == x
    ensures FileAccounts(v, st, accounts) == st
  {
  }

  predicate Part10(events: seq<Event>, n: nat) {
    && n + 6 <= |events| && events[n] == Shards(Execute(0, [])) && events[n + 1] == Shards(Execute(1, []))
    && events[n + 2] == BlockInfo(3) && events[n + 3] == Shards(Publish(NOTHING)) && Part6(events, n + 4, 4)
  }

  function After10(c: Config, t: Tx): Supervised {
    Is(Rests0(5, 4), Rests1(c, t, 5, 4), {}, [NOTHING, NOTHING, Late(t), NOTHING], Paid(c, t), {1, 2, 3}, 3)
  }

  function Reported(c: Config, t: Tx): Supervised {
    Is(Rests0(5, 2), Rests1(c, t, 5, 2), {SeqIDMsg(0, 1, 4), SeqIDMsg(1, 0, 4)}, [NOTHING, NOTHING, Late(t)],
       Paid(c, t), {1, 2, 3}, 2)
  }

  lemma ReportsDone(c: Config, t: Tx, events: seq<Event>, n: nat)
    requires Fits(c, t) && Part10(events, n)
    requires Course(c, events, n)
          == Is(Rests0(4, 2), Rests1(c, t, 4, 2), {}, [NOTHING, NOTHING, Late(t)], Paid(c, t), {1, 2}, 2)
    ensures Course(c, events, n + 2) == Reported(c, t)
  {
    FirstReports(c, t, events, n);
    SecondReports(c, t, events, n + 1);
  }

  lemma SecondReports(c: Config, t: Tx, events: seq<Event>, n: nat)
    requires c.shardNum == 2 && n < |events| && events[n] == Shards(Execute(1, []))
    requires Course(c, events, n) == ReportedFirst(c, t)
    ensures Course(c, events, n + 1) == Reported(c, t)
  {
    var a, n1 := ReportedFirst(c, t), Rests1(c, t, 5, 2);
    DoEmpty(c, events, n, a, 1);
    assert a.sys.nodes[1 := n1] == [Rests0(5, 2), n1] && a.reported + {3} == {1, 2, 3};
    assert a.sys.net + {SeqIDMsg(1, 0, 4)} == {SeqIDMsg(0, 1, 4), SeqIDMsg(1, 0, 4)};
  }

  function ReportedFirst(c: Config, t: Tx): Supervised {
    Is(Rests0(5, 2), Rests1(c, t, 4, 2), {SeqIDMsg(0, 1, 4)}, [NOTHING, NOTHING, Late(t)], Paid(c, t), {1, 2}, 2)
  }

  lemma FirstReports(c: Config, t: Tx, events: seq<Event>, n: nat)
    requires Fits(c, t) && Part10(events, n)
    requires Course(c, events, n)
          == Is(Rests0(4, 2), Rests1(c, t, 4, 2), {}, [NOTHING, NOTHING, Late(t)], Paid(c, t), {1, 2}, 2)
    ensures Course(c, events, n + 1) == ReportedFirst(c, t)
  {
    DoEmpty(c, events, n, Course(c, events, n), 0);
  }

  /** Both report, shard 1 the third epoch, and the fourth announcement is made. */
  lemma Part10Done(c: Config, t: Tx, events: seq<Event>, n: nat)
    requires Fits(c, t) && Part10(events, n)
    requires Course(c, events, n)
          == Is(Rests0(4, 2), Rests1(c, t, 4, 2), {}, [NOTHING, NOTHING, Late(t)], Paid(c, t), {1, 2}, 2)
    ensures Course(c, events, n + 6) == After10(c, t)
  {
    ReportsDone(c, t, events, n);
    FourthMade(c, t, events, n + 2);
    HeardFour(c, t);
    DoHearSeqIDs(c, events, n + 4, FourAnnounced(c, t), Rests0(5, 2), Rests1(c, t, 5, 2), 4);
  }

  lemma HeardFour(c: Config, t: Tx)
    ensures FourAnnounced(c, t)
         == Both(FourAnnounced(c, t), Rests0(5, 2), Rests1(c, t, 5, 2), {SeqIDMsg(0, 1, 4), SeqIDMsg(1, 0, 4)})
    ensures var n0, n1 := Rests0(5, 2), Rests1(c, t, 5, 2);
            Both(FourAnnounced(c, t), n0.(seqIDMap := n0.seqIDMap[1 := 4]), n1.(seqIDMap := n1.seqIDMap[0 := 4]), {})
            == After10(c, t)
  {
    assert map[1 := 2][1 := 4] == map[1 := 4] && map[0 := 2][0 := 4] == map[0 := 4];
  }

  function FourAnnounced(c: Config, t: Tx): Supervised {
    Is(Rests0(5, 2), Rests1(c, t, 5, 2), {SeqIDMsg(0, 1, 4), SeqIDMsg(1, 0, 4)}, [NOTHING, NOTHING, Late(t), NOTHING],
       Paid(c, t), {1, 2, 3}, 3)
  }

  lemma FourthMade(c: Config, t: Tx, events: seq<Event>, n: nat)
    requires n + 2 <= |events| && events[n] == BlockInfo(3) && events[n + 1] == Shards(Publish(NOTHING))
    requires Course(c, events, n) == Reported(c, t)
    ensures Course(c, events, n + 2) == FourAnnounced(c, t)
  {
    var a := Reported(c, t);
    DoInfo(c, events, n, a, 3);
    DoPublish(c, events, n + 1, a.(curEpoch := 3), NOTHING);
    assert a.sys.maps + [NOTHING] == [NOTHING, NOTHING, Late(t), NOTHING];
  }

  /** The third exchange: shard 0 performs the announcement that gives it the account, and shard 1 the fourth. */
  predicate Part11(events: seq<Event>, n: nat) {
    && n + 14 <= |events| && Opening(events, n, ReadyMsg(0, 1, 2, 5), ReadyMsg(1, 0, 2, 5))
    && Ending(events, n + 8, 0, AccountsMsg(1, 0, 2, map[])) && Ending(events, n + 11, 1, AccountsMsg(0, 1, 2, map[]))
  }

  function Third0(t: Tx): Node {
    Node(map[], NOTHING, [NOTHING, NOTHING, Late(t)], 2, true, Sent, {0, 1}, map[], false, 5, map[1 := 4],
         map[1 := 5], 3, 2)
  }

  function Third1(c: Config, t: Tx): Node {
    Node(Paid(c, t), Late(t), [NOTHING, NOTHING, Late(t), NOTHING], 3, true, Sent, {0, 1}, map[], false, 5,
         map[0 := 4], map[0 := 5], 4, 2)
  }

  function End0(t: Tx): Node {
    Node(map[], Late(t), [NOTHING, NOTHING, Late(t)], 3, false, Normal, {}, map[], false, 6, map[1 := 4],
         map[1 := 5], 3, 3)
  }

  function End1(c: Config, t: Tx): Node {
    Node(Paid(c, t), Late(t), [NOTHING, NOTHING, Late(t), NOTHING], 4, false, Normal, {}, map[], false, 6,
         map[0 := 4], map[0 := 5], 4, 3)
  }

  function After11(c: Config, t: Tx): Supervised {
    Is(End0(t), End1(c, t), {}, [NOTHING, NOTHING, Late(t), NOTHING], Paid(c, t), {1, 2, 3}, 3)
  }

  lemma ThirdOpened(c: Config, t: Tx)
    ensures Opened(Rests0(5, 4), 0, Late(t), Rests1(c, t, 5, 4)) == Third0(t)
    ensures Opened(Rests1(c, t, 5, 4), 1, NOTHING, Rests0(5, 4)) == Third1(c, t)
  {
  }

  lemma ThirdClosed(c: Config, t: Tx)
    ensures Closed(c, Third0(t), 0, map[]) == End0(t) && Closed(c, Third1(c, t), 1, map[]) == End1(c, t)
  {
    assert NOTHING + Late(t) == Late(t) && Late(t) + NOTHING == Late(t);
    assert FileAccounts(View(1, Late(t), c.home), Paid(c, t), map[]) == Paid(c, t);
  }

  lemma Part11Done(c: Config, t: Tx, events: seq<Event>, n: nat)
    requires Fits(c, t) && Part11(events, n) && Course(c, events, n) == After10(c, t)
    ensures Course(c, events, n + 14) == After11(c, t)
    ensures !Overtakes(c, Course(c, events, n), events[n])
    ensures !Overtakes(c, Course(c, events, n + 1), events[n + 1])
  {
    ThirdOpens(c, t, events, n);
    DoCloseBoth(c, events, n + 8, AfterOpening(c, t), Third0(t), Third1(c, t), 2, map[], map[]);
    ThirdClosed(c, t);
  }

  function AfterOpening(c: Config, t: Tx): Supervised {
    Is(Third0(t), Third1(c, t), {AccountsMsg(0, 1, 2, map[]), AccountsMsg(1, 0, 2, map[])},
       [NOTHING, NOTHING, Late(t), NOTHING], Paid(c, t), {1, 2, 3}, 3)
  }

  lemma ThirdGives(c: Config, t: Tx)
    ensures Gifts(c, Begun(Rests0(5, 4), 0, Late(t)), Begun(Rests1(c, t, 5, 4), 1, NOTHING))
         == {AccountsMsg(0, 1, 2, map[]), AccountsMsg(1, 0, 2, map[])}
  {
    GivesNothing(c, Begun(Rests0(5, 4), 0, Late(t)), 0);
    GivesNothing(c, Begun(Rests1(c, t, 5, 4), 1, NOTHING), 1);
  }

  lemma ThirdOpens(c: Config, t: Tx, events: seq<Event>, n: nat)
    requires Fits(c, t) && Part11(events, n) && Course(c, events, n) == After10(c, t)
    ensures Course(c, events, n + 8) == AfterOpening(c, t)
    ensures !Overtakes(c, Course(c, events, n), events[n])
    ensures !Overtakes(c, Course(c, events, n + 1), events[n + 1])
  {
    DoOpen(c, events, n, After10(c, t), Rests0(5, 4), Rests1(c, t, 5, 4));
    ThirdOpened(c, t);
    ThirdGives(c, t);
  }

  function EventOn(c: Config, i: nat, t: Tx): Event {
    if i < 38 then EventAt(c, i, t, Quietly(t)) else
      match i
      case 38 => Shards(Execute(0, []))
      case 39 => Shards(Execute(1, []))
      case 40 => BlockInfo(3)
      case 41 => Shards(Publish(NOTHING))
      case 42 => Shards(DeliverSeqID(SeqIDMsg(0, 1, 4)))
      case 43 => Shards(DeliverSeqID(SeqIDMsg(1, 0, 4)))
      case 44 => Shards(Arrive(0))
      case 45 => Shards(Arrive(1))
      case 46 => Shards(Ready(0))
      case 47 => Shards(Ready(1))
      case 48 => Shards(DeliverReady(ReadyMsg(0, 1, 2, 5)))
      case 49 => Shards(DeliverReady(ReadyMsg(1, 0, 2, 5)))
      case 50 => Shards(Send(0))
      case 51 => Shards(Send(1))
      case 52 => Shards(DeliverAccounts(AccountsMsg(1, 0, 2, map[])))
      case 53 => Shards(Propose(0, [1]))
      case 54 => Shards(Commit(0))
      case 55 => Shards(DeliverAccounts(AccountsMsg(0, 1, 2, map[])))
      case 56 => Shards(Propose(1, [0]))
      case _ => Shards(Commit(1))
  }

  /** The same with an empty second announcement and the moving one third, and one more round. */
  function LongStory(c: Config, t: Tx): (events: seq<Event>)
    ensures |events| == 58 && forall i :: 0 <= i < 58 ==> events[i] == EventOn(c, i, t)
  {
    seq(58, i requires 0 <= i < 58 => EventOn(c, i, t))
  }

  lemma LongParts(c: Config, t: Tx, events: seq<Event>)
    requires |events| == 58 && forall i :: 38 <= i < 58 ==> events[i] == EventOn(c, i, t)
    ensures Part10(events, 38) && Part11(events, 44)
  {
  }

  lemma LongTold(c: Config, t: Tx, events: seq<Event>, n: nat)
    requires Fits(c, t) && n + 58 == |events| && FirstHalf(events, n, Quietly(t))
    requires SecondHalf(c, events, n + 19, t, Quietly(t)) && Part10(events, n + 38) && Part11(events, n + 44)
    requires Course(c, events, n) == Supervised(Init(c), {}, 0)
    ensures Course(c, events, n + 15) == After3(Quietly(t)) && Overtakes(c, After3(Quietly(t)), events[n + 15])
    ensures Course(c, events, n + 38) == After9(c, t, Quietly(t)) && Course(c, events, |events|) == After11(c, t)
    ensures forall k :: k in {n + 24, n + 25, n + 44, n + 45} ==> !Overtakes(c, Course(c, events, k), events[k])
  {
    StoryTold(c, t, Quietly(t), events, n);
    LastAre(c, t);
    Part10Done(c, t, events, n + 38);
    Part11Done(c, t, events, n + 44);
  }

  /** Of the later events, only four bring announcements. */
  lemma LongArrivals(c: Config, t: Tx, k: nat)
    requires 16 <= k < 58 && EventOn(c, k, t).Shards? && EventOn(c, k, t).step.Arrive?
    ensures k in {24, 25, 44, 45}
  {
  }

  lemma {:induction false} CalmIf(c: Config, events: seq<Event>, n: nat, m: nat)
    requires n <= m <= |events| && forall k :: n <= k < m ==> !Overtakes(c, Course(c, events, k), events[k])
    ensures Calmly(c, events, n, m)
  {
    if n < m {
      CalmIf(c, events, n, m - 1);
    }
  }

  lemma FourMaps(late: PartitionMap)
    ensures PmAfter([NOTHING, NOTHING, late, NOTHING], 3) == late == PmAfter([NOTHING, NOTHING, late, NOTHING], 4)
  {
    var maps := [NOTHING, NOTHING, late, NOTHING];
    assert PmAfter(maps, 1) == PmAfter(maps, 0) + NOTHING == NOTHING;
    assert PmAfter(maps, 2) == PmAfter(maps, 1) + NOTHING == NOTHING;
    assert PmAfter(maps, 3) == PmAfter(maps, 2) + late == late;
    assert PmAfter(maps, 4) == PmAfter(maps, 3) + NOTHING == late;
  }

  /** After the second exchange nobody owns the account. */
  lemma NobodyOwns(c: Config, t: Tx)
    requires Fits(c, t)
    ensures var sys := After9(c, t, Quietly(t)).sys;
            Begins(sys, 2) && forall s :: 0 <= s < |sys.nodes| ==> !ViewOf(c, sys, s).Owns(t.recipient)
  {
    LastAre(c, t);
  }

  /** After the third shard 0 does, and does not have it. */
  lemma EndsAre(c: Config, t: Tx)
    requires Fits(c, t)
    ensures var sys := After11(c, t).sys;
            && |sys.nodes| == 2 && sys.net == {} && Begins(sys, 3) && OnlyOwner(c, sys, 0, t.recipient)
            && UpToDate(c, sys, 0) && UpToDate(c, sys, 1)
            && Balance(sys.truth, t.recipient) == INIT_BALANCE + t.value
            && Balance(sys.nodes[0].state, t.recipient) == INIT_BALANCE
  {
    FourMaps(Late(t));
    PaidIs(c, t);
  }

  /** The only announcement that overtakes a round is empty. The third moves the recipient of the payment to shard 0,
      and after the round in which shard 1 performs it the account has no owner. After the next round every shard
      places it where the announcements do, and shard 0 is its one owner and reads the initial balance. */
  lemma AccountLost(c: Config, t: Tx) returns (j: nat, k: nat)
    requires Fits(c, t)
    ensures var events := LongStory(c, t);
            && 0 < j < k < |events| && Calmly(c, events, j + 1, |events|)
            && (var a, b, sys := Course(c, events, j), SysAt(c, events, k), SysAt(c, events, |events|);
                && Overtakes(c, a, events[j]) && a.sys.maps == [NOTHING, NOTHING]
                && Begins(b, 2) && (forall s :: 0 <= s < |b.nodes| ==> !ViewOf(c, b, s).Owns(t.recipient))
                && |sys.nodes| == 2 && sys.net == {} && Begins(sys, 3) && OnlyOwner(c, sys, 0, t.recipient)
                && UpToDate(c, sys, 0) && UpToDate(c, sys, 1)
                && Balance(sys.truth, t.recipient) == INIT_BALANCE + t.value
                && Balance(sys.nodes[0].state, t.recipient) == INIT_BALANCE)
  {
    j, k := 15, 38;
    LongRun(c, t, LongStory(c, t), 0, j, k);
    NobodyOwns(c, t);
    EndsAre(c, t);
  }

  lemma LongRun(c: Config, t: Tx, events: seq<Event>, n: nat, j: nat, k: nat)
    requires Fits(c, t) && events == LongStory(c, t) && n == 0 && j == n + 15 && k == n + 38
    ensures Course(c, events, j) == After3(Quietly(t)) && Overtakes(c, After3(Quietly(t)), events[j])
    ensures Calmly(c, events, j + 1, |events|)
    ensures Course(c, events, k) == After9(c, t, Quietly(t)) && Course(c, events, |events|) == After11(c, t)
  {
    StoryFirst(c, t, Quietly(t), events);
    StorySecond(c, t, Quietly(t), events);
    LongParts(c, t, events);
    LongTold(c, t, events, n);
    forall i | j + 1 <= i < |events|
      ensures !Overtakes(c, Course(c, events, i), events[i])
    {
      if events[i].Shards? && events[i].step.Arrive? {
        LongArrivals(c, t, i);
      }
    }
    CalmIf(c, events, j + 1, |events|);
  }
}
