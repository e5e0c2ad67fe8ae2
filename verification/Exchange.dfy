/** One round of all shards, in any run and whatever announcements overtake: when exactly an account is read right at
    its owner afterwards. */
module Exchanges {
  import opened Addresses
  import opened Transactions
  import opened Reshardings
  import opened ReshardingViews
  import opened Overtakings

  /** Every shard has gone through the same number of rounds, and none has sent for the next. */
  ghost predicate Begins(sys: System, turn: nat) {
    forall s :: 0 <= s < |sys.nodes| ==> sys.nodes[s].turn == turn && !sys.nodes[s].HasSent()
  }

  ghost predicate OnlyOwner(c: Config, sys: System, o: nat, x: Address) {
    o < |sys.nodes| && forall s :: 0 <= s < |sys.nodes| ==> (ViewOf(c, sys, s).Owns(x) <==> s == o)
  }

  /** The account has one owner, which reads the truth. */
  ghost predicate OneReader(c: Config, sys: System, o: nat, x: Address) {
    OnlyOwner(c, sys, o, x) && Same(sys.nodes[o].state, sys.truth, x)
  }

  /** Nothing is underway between rounds. */
  lemma NothingSent(c: Config, sys: System, turn: nat)
    requires Sync(c, sys) && Begins(sys, turn)
    ensures forall m :: m in sys.net ==> !m.AccountsMsg?
    ensures forall s :: 0 <= s < |sys.nodes| ==> sys.nodes[s].received == map[]
  {
    forall m | m in sys.net
      ensures !m.AccountsMsg?
    {
      assert MsgOk(sys.nodes, m);
    }
    forall s | 0 <= s < |sys.nodes|
      ensures sys.nodes[s].received == map[]
    {
      forall t | t in sys.nodes[s].received
        ensures false
      {
        Known(c, sys, s, t);
      }
    }
  }

  /** Where the accounts of a shard end up when its round ends with the given map. */
  ghost predicate HeadsFor(n: Node, turn: nat, end: PartitionMap) {
    && n.turn <= turn + 1
    && (n.turn == turn && n.HasSent() ==> n.pm + Closing(n) == end)
    && (n.turn == turn + 1 ==> n.pm == end && !n.HasSent())
  }

  lemma HeadsForArrived(n: Node, m: PartitionMap, turn: nat, end: PartitionMap)
    requires RecordOk(n) && (n.phase != Normal ==> n.partitionOn) && HeadsFor(Arrived(n, m), turn, end)
    ensures HeadsFor(n, turn, end)
  {
  }

  lemma HeadsForCommitted(c: Config, n: Node, s: nat, turn: nat, end: PartitionMap)
    requires n.phase.Proposed? && HeadsFor(Committed(c, n, s, n.phase.request), turn, end)
    ensures HeadsFor(n, turn, end)
  {
  }

  lemma HeadsForProposed(n: Node, order: seq<nat>, turn: nat, end: PartitionMap)
    requires n.round < |n.modified| && n.phase == Sent && forall i :: 0 <= i < |order| ==> order[i] in n.received
    requires HeadsFor(n.(phase := Proposed(RequestOf(n, order))), turn, end)
    ensures HeadsFor(n, turn, end)
  {
  }

  lemma HeadsForBefore(c: Config, sys: System, step: Step, s: nat, turn: nat, end: PartitionMap)
    requires Sync(c, sys) && Enabled(c, sys, step) && s < |sys.nodes|
    requires HeadsFor(Next(c, sys, step).nodes[s], turn, end)
    ensures HeadsFor(sys.nodes[s], turn, end)
  {
    Known(c, sys, s, s);
    var n := sys.nodes[s];
    if step == Arrive(s) {
      HeadsForArrived(n, sys.maps[n.heard], turn, end);
    } else if step == Commit(s) {
      HeadsForCommitted(c, n, s, turn, end);
    } else if step.Propose? && step.s == s {
      HeadsForProposed(n, step.order, turn, end);
    } else if !step.Propose? {
      RecordUnmoved(c, sys, step, s);
    }
  }

  lemma {:induction false} HeadsForEarlier(c: Config, events: seq<Event>, n: nat, m: nat, s: nat, turn: nat)
    requires n <= m <= |events| && s < c.shardNum && Begins(SysAt(c, events, m), turn + 1)
    ensures |SysAt(c, events, n).nodes| == |SysAt(c, events, m).nodes| == c.shardNum
    ensures HeadsFor(SysAt(c, events, n).nodes[s], turn, SysAt(c, events, m).nodes[s].pm)
    decreases m - n
  {
    CourseSync(c, events, n);
    CourseSync(c, events, m);
    if n < m {
      HeadsForEarlier(c, events, n + 1, m, s, turn);
      var a, e := Course(c, events, n), events[n];
      if Possible(c, a, e) && e.Shards? {
        HeadsForBefore(c, a.sys, e.step, s, turn, SysAt(c, events, m).nodes[s].pm);
      }
    }
  }

  /** A shard in the exchange of the turn: it has the map it had as long as it has not committed, and once it has sent
      it does not send again. */
  ghost predicate Since(was: Node, n: Node) {
    n.turn >= was.turn && (n.turn == was.turn ==> n.pm == was.pm && (was.HasSent() ==> n.HasSent()))
  }

  lemma SinceThen(c: Config, sys: System, step: Step, s: nat, was: Node)
    requires Enabled(c, sys, step) && s < |sys.nodes| && Since(was, sys.nodes[s])
    ensures |Next(c, sys, step).nodes| == |sys.nodes| && Since(was, Next(c, sys, step).nodes[s])
  {
  }

  lemma {:induction false} SinceLater(c: Config, events: seq<Event>, n: nat, m: nat, s: nat)
    requires n <= m <= |events| && s < c.shardNum
    ensures |SysAt(c, events, n).nodes| == |SysAt(c, events, m).nodes| == c.shardNum
    ensures Since(SysAt(c, events, n).nodes[s], SysAt(c, events, m).nodes[s])
  {
    CourseSync(c, events, n);
    if n < m {
      SinceLater(c, events, n, m - 1, s);
      var a, e := Course(c, events, m - 1), events[m - 1];
      if Possible(c, a, e) && e.Shards? {
        SinceThen(c, a.sys, e.step, s, SysAt(c, events, n).nodes[s]);
      }
    }
  }

  ghost predicate SendsAt(c: Config, a: Supervised, e: Event, s: nat) {
    Possible(c, a, e) && e.Shards? && e.step == Send(s)
  }

  /** Between the beginnings of two rounds each shard sends in the turn of the first, and only once. */
  lemma SendInTurn(c: Config, events: seq<Event>, n: nat, j: nat, m: nat, s: nat, turn: nat)
    requires n <= j < m <= |events| && s < c.shardNum
    requires Begins(SysAt(c, events, n), turn) && Begins(SysAt(c, events, m), turn + 1)
    requires SendsAt(c, Course(c, events, j), events[j], s)
    ensures |SysAt(c, events, n).nodes| == |SysAt(c, events, j).nodes| == |SysAt(c, events, m).nodes| == c.shardNum
    ensures var was := SysAt(c, events, j).nodes[s];
            && was.turn == turn && was.pm == SysAt(c, events, n).nodes[s].pm && was.modified != []
            && was.pm + Closing(was) == SysAt(c, events, m).nodes[s].pm
  {
    SinceLater(c, events, n, j, s);
    HeadsForEarlier(c, events, j + 1, m, s, turn);
    HasSentNow(c, events, j, s);
  }

  lemma HasSentNow(c: Config, events: seq<Event>, j: nat, s: nat)
    requires j < |events| && SendsAt(c, Course(c, events, j), events[j], s)
    ensures var was := SysAt(c, events, j).nodes[s];
            && s < |SysAt(c, events, j + 1).nodes|
            && SysAt(c, events, j + 1).nodes[s] == was.(phase := Sent)
  {
    assert SysAt(c, events, j + 1) == Next(c, SysAt(c, events, j), Send(s));
  }

  lemma AfterSend(c: Config, events: seq<Event>, j: nat, k: nat, s: nat)
    requires j < k < |events| && s < c.shardNum && SendsAt(c, Course(c, events, j), events[j], s)
    ensures |SysAt(c, events, j).nodes| == |SysAt(c, events, k).nodes| == c.shardNum
    ensures SendsAt(c, Course(c, events, k), events[k], s)
            ==> SysAt(c, events, k).nodes[s].turn != SysAt(c, events, j).nodes[s].turn
  {
    CourseSync(c, events, j);
    HasSentNow(c, events, j, s);
    SinceLater(c, events, j + 1, k, s);
  }

  lemma SendOnce(c: Config, events: seq<Event>, n: nat, j: nat, k: nat, m: nat, s: nat, turn: nat)
    requires n <= j < k < m <= |events| && s < c.shardNum
    requires Begins(SysAt(c, events, n), turn) && Begins(SysAt(c, events, m), turn + 1)
    requires SendsAt(c, Course(c, events, j), events[j], s)
    ensures !SendsAt(c, Course(c, events, k), events[k], s)
  {
    AfterSend(c, events, j, k, s);
    SendInTurn(c, events, n, j, m, s, turn);
    if SendsAt(c, Course(c, events, k), events[k], s) {
      SendInTurn(c, events, n, k, m, s, turn);
    }
  }

  // ----- Handing an account over -----

  /** The rounds of one turn, at whose beginning the account has one owner, which sends at event k. */
  ghost predicate Exchange(c: Config, events: seq<Event>, n: nat, k: nat, m: nat, turn: nat, o: nat, x: Address) {
    && n <= k < m <= |events|
    && Begins(SysAt(c, events, n), turn) && OnlyOwner(c, SysAt(c, events, n), o, x)
    && Begins(SysAt(c, events, m), turn + 1) && SendsAt(c, Course(c, events, k), events[k], o)
  }

  /** From its owner to the next in one turn. */
  function Over(turn: nat, o: nat, t: nat): (way: Way)
    ensures forall k: nat :: At(way, k) == if k <= turn then o else t
  {
    seq(turn + 1, _ => o) + [t]
  }

  /** The owner keeps the account, or sends it to the next owner. */
  predicate Passes(n: Node, o: nat, x: Address, t: nat) {
    t == o || (n.modified != [] && Sends(n, x, t))
  }

  /** When a round begins, an account with one owner that reads the truth is on any way that has it there. */
  lemma BeginOnWay(c: Config, sys: System, turn: nat, way: Way, o: nat, x: Address)
    requires Sync(c, sys) && Begins(sys, turn) && OneReader(c, sys, o, x)
    requires At(way, turn) == o
    ensures OnWay(c, sys, way, x)
  {
    NothingSent(c, sys, turn);
    forall s | 0 <= s < |sys.nodes|
      ensures NodePlaced(c, way, sys.nodes[s], s, x) && HeldRight(sys, way, s, x)
    {
      assert ViewOf(c, sys, s).Owns(x) <==> s == o;
    }
  }

  /** In the exchange everybody keeps to that way. */
  lemma HandsOver(c: Config, events: seq<Event>, n: nat, j: nat, k: nat, m: nat, turn: nat, o: nat, t: nat, x: Address)
    requires n <= j < m <= |events| && t < c.shardNum
    requires Exchange(c, events, n, k, m, turn, o, x) && OnlyOwner(c, SysAt(c, events, m), t, x)
    requires Passes(SysAt(c, events, k).nodes[o], o, x, t)
    ensures EventKeepsTo(c, Course(c, events, j), events[j], Over(turn, o, t), x)
  {
    var a, e := Course(c, events, j), events[j];
    if Possible(c, a, e) && e.Shards? && e.step.Send? {
      CourseSync(c, events, j);
      var s := e.step.s;
      SendInTurn(c, events, n, j, m, s, turn);
      if s == o && j != k {
        SendOnce(c, events, n, if j < k then j else k, if j < k then k else j, m, o, turn);
      }
      assert ViewOf(c, SysAt(c, events, m), s).Owns(x) <==> s == t;
    }
  }

  lemma {:induction false} AllHandOver(c: Config, events: seq<Event>, n: nat, j: nat, k: nat, m: nat, turn: nat,
                                       o: nat, t: nat, x: Address)
    requires n <= j <= m <= |events| && t < c.shardNum
    requires Exchange(c, events, n, k, m, turn, o, x) && OnlyOwner(c, SysAt(c, events, m), t, x)
    requires Passes(SysAt(c, events, k).nodes[o], o, x, t)
    ensures AllKeepTo(c, events, n, j, Over(turn, o, t), x)
  {
    if n < j {
      AllHandOver(c, events, n, j - 1, k, m, turn, o, t, x);
      HandsOver(c, events, n, j - 1, k, m, turn, o, t, x);
    }
  }

  /** An account that its owner keeps, or sends to its next owner, stays on that way. */
  lemma HandedOver(c: Config, events: seq<Event>, n: nat, j: nat, k: nat, m: nat, turn: nat, o: nat, t: nat, x: Address)
    requires n <= j <= m <= |events| && x !in c.brokers
    requires Exchange(c, events, n, k, m, turn, o, x) && OneReader(c, SysAt(c, events, n), o, x)
    requires OnlyOwner(c, SysAt(c, events, m), t, x) && Passes(SysAt(c, events, k).nodes[o], o, x, t)
    ensures Sync(c, SysAt(c, events, j)) && OnWay(c, SysAt(c, events, j), Over(turn, o, t), x)
  {
    CourseSync(c, events, n);
    CourseSync(c, events, j);
    CourseSync(c, events, m);
    BeginOnWay(c, SysAt(c, events, n), turn, Over(turn, o, t), o, x);
    AllHandOver(c, events, n, j, k, m, turn, o, t, x);
    StaysOnWay(c, events, n, j, Over(turn, o, t), x);
  }

  // ----- Not handing it over -----

  /** Nothing that has come to shard t, or is on its way there, has the account. */
  ghost predicate Lacks(sys: System, t: nat, x: Address)
    requires t < |sys.nodes|
  {
    && (forall m :: m in sys.net && m.AccountsMsg? && m.to == t ==> x !in m.accounts)
    && (forall u :: u in sys.nodes[t].received ==> x !in sys.nodes[t].received[u])
  }

  /** The shard reads what it read. */
  ghost predicate Unchanged(x: Address, before: Trie, after: Trie) {
    (x in after <==> x in before) && (x in before ==> after[x] == before[x])
  }

  lemma LacksStays(c: Config, sys: System, step: Step, t: nat, x: Address)
    requires Sync(c, sys) && Enabled(c, sys, step) && t < |sys.nodes| && Lacks(sys, t, x)
    requires step.Send? && t in Others(c, step.s) ==> x !in SentTo(c, sys.nodes[step.s], step.s, t)
    ensures |Next(c, sys, step).nodes| == |sys.nodes| && Lacks(Next(c, sys, step), t, x)
  {
  }

  /** Without the account coming, nothing but a transaction changes its state. */
  lemma LacksReads(c: Config, sys: System, step: Step, t: nat, x: Address)
    requires Sync(c, sys) && Enabled(c, sys, step) && t < |sys.nodes| && Lacks(sys, t, x) && Untouched(step, x)
    ensures |Next(c, sys, step).nodes| == |sys.nodes|
    ensures Unchanged(x, sys.nodes[t].state, Next(c, sys, step).nodes[t].state)
  {
    if step.Execute? {
      ExecUntouched(ViewOf(c, sys, step.s), sys.nodes[step.s].state, step.txs, |step.txs|, x);
    } else if step == Commit(t) {
      Known(c, sys, t, t);
      assert MergeOf(sys.nodes[t].received, sys.nodes[t].phase.request.accounts);
    }
  }

  lemma LacksNext(c: Config, sys: System, step: Step, t: nat, x: Address)
    requires Sync(c, sys) && Enabled(c, sys, step) && t < |sys.nodes| && Lacks(sys, t, x) && Untouched(step, x)
    requires step.Send? && t in Others(c, step.s) ==> x !in SentTo(c, sys.nodes[step.s], step.s, t)
    ensures var next := Next(c, sys, step);
            && |next.nodes| == |sys.nodes| && Lacks(next, t, x)
            && Unchanged(x, sys.nodes[t].state, next.nodes[t].state) && Same(next.truth, sys.truth, x)
  {
    LacksStays(c, sys, step, t, x);
    LacksReads(c, sys, step, t, x);
    TruthUntouched(c, sys, step, x);
  }

  ghost predicate UntouchedBy(events: seq<Event>, n: nat, m: nat, x: Address)
    requires n <= m <= |events|
  {
    forall j :: n <= j < m && events[j].Shards? ==> Untouched(events[j].step, x)
  }

  /** Only the owner could send it, and does not. */
  lemma NotSentNow(c: Config, events: seq<Event>, n: nat, j: nat, k: nat, m: nat, turn: nat, o: nat, t: nat, x: Address)
    requires n <= j < m <= |events| && Exchange(c, events, n, k, m, turn, o, x)
    requires !Passes(SysAt(c, events, k).nodes[o], o, x, t)
    requires Possible(c, Course(c, events, j), events[j]) && events[j].Shards? && events[j].step.Send?
    ensures var s := events[j].step.s;
            t in Others(c, s) ==> x !in SentTo(c, SysAt(c, events, j).nodes[s], s, t)
  {
    var s := events[j].step.s;
    CourseSync(c, events, j);
    CourseSync(c, events, n);
    SendInTurn(c, events, n, j, m, s, turn);
    if s == o && j != k {
      SendOnce(c, events, n, if j < k then j else k, if j < k then k else j, m, o, turn);
    }
    assert ViewOf(c, SysAt(c, events, n), s).Owns(x) <==> s == o;
  }

  /** The shard has its own copy of the account, as before, and nothing else of it; and the truth is what it was. */
  ghost predicate Left(c: Config, before: System, now: System, t: nat, x: Address) {
    && t < |before.nodes| == |now.nodes| && Lacks(now, t, x)
    && Unchanged(x, before.nodes[t].state, now.nodes[t].state) && Same(now.truth, before.truth, x)
  }

  lemma LeftNext(c: Config, before: System, sys: System, step: Step, t: nat, x: Address)
    requires Sync(c, sys) && Enabled(c, sys, step) && Left(c, before, sys, t, x) && Untouched(step, x)
    requires step.Send? && t in Others(c, step.s) ==> x !in SentTo(c, sys.nodes[step.s], step.s, t)
    ensures Left(c, before, Next(c, sys, step), t, x)
  {
    LacksNext(c, sys, step, t, x);
  }

  /** The shard that the owner has not sent the account to goes on with its own copy, and the truth stays. */
  lemma {:induction false} NeverSent(c: Config, events: seq<Event>, n: nat, j: nat, k: nat, m: nat, turn: nat,
                                     o: nat, t: nat, x: Address)
    requires n <= j <= m <= |events| && Exchange(c, events, n, k, m, turn, o, x) && t < c.shardNum
    requires !Passes(SysAt(c, events, k).nodes[o], o, x, t) && UntouchedBy(events, n, j, x)
    ensures Left(c, SysAt(c, events, n), SysAt(c, events, j), t, x)
  {
    if j == n {
      CourseSync(c, events, n);
      NothingSent(c, SysAt(c, events, n), turn);
    } else {
      NeverSent(c, events, n, j - 1, k, m, turn, o, t, x);
      var a, e := Course(c, events, j - 1), events[j - 1];
      CourseSync(c, events, j - 1);
      if Possible(c, a, e) && e.Shards? {
        if e.step.Send? {
          NotSentNow(c, events, n, j - 1, k, m, turn, o, t, x);
        }
        LeftNext(c, SysAt(c, events, n), a.sys, e.step, t, x);
      }
    }
  }

  // ----- The exact condition -----

  /** One exchange of any run, from the beginning of one round, at which the account has one owner o that reads the
      truth, to the beginning of the next, at which it has one owner t: that one reads the truth if the old owner is it
      or has sent the account to it. For an account that no transaction touches meanwhile that is exact, but for a
      copy that shard t has had all along and that is right by chance. */
  lemma ExchangeExactly(c: Config, events: seq<Event>, n: nat, k: nat, m: nat, turn: nat, o: nat, t: nat, x: Address)
    requires x !in c.brokers && Exchange(c, events, n, k, m, turn, o, x)
    requires OneReader(c, SysAt(c, events, n), o, x) && OnlyOwner(c, SysAt(c, events, m), t, x)
    ensures var before, after := SysAt(c, events, n), SysAt(c, events, m);
            var passed := Passes(SysAt(c, events, k).nodes[o], o, x, t);
            && |before.nodes| == |after.nodes|
            && (passed ==> OneReader(c, after, t, x))
            && (UntouchedBy(events, n, m, x) ==>
                  (OneReader(c, after, t, x) <==> passed || Same(before.nodes[t].state, before.truth, x)))
  {
    CourseSync(c, events, n);
    CourseSync(c, events, m);
    if Passes(SysAt(c, events, k).nodes[o], o, x, t) {
      HandedOver(c, events, n, m, k, m, turn, o, t, x);
      BeginReads(c, SysAt(c, events, m), Over(turn, o, t), turn + 1, t, x);
    } else if UntouchedBy(events, n, m, x) {
      NeverSent(c, events, n, m, k, m, turn, o, t, x);
    }
  }

  /** When a round begins, the shard that owns an account on its way reads the truth. */
  lemma BeginReads(c: Config, sys: System, way: Way, turn: nat, o: nat, x: Address)
    requires Begins(sys, turn) && OnlyOwner(c, sys, o, x) && OnWay(c, sys, way, x)
    ensures OneReader(c, sys, o, x)
  {
    Placed(c, sys, way, x, o);
    assert ViewOf(c, sys, o).Owns(x);
    assert !Gone(sys.nodes, way, o);
  }
}
