/** Re-sharding under the supervisor of broker mode (supervisor/committee/committee_clpa_broker.go), which announces
    the next partition as soon as one shard has reported from the last: when an announcement first overtakes a
    round, and by which announcements the overtaken shard places accounts from then on. */
module Overtakings {
  import opened Addresses
  import opened Transactions
  import opened Reshardings
  import opened ReshardingViews

  /** The shards, the epochs that shards have reported with a committed block, and the supervisor's epoch. */
  datatype Supervised = Supervised(sys: System, reported: set<nat>, curEpoch: nat)

  datatype Event =
    | Shards(step: Step)        // a step of the shards, or the next announcement
    | BlockInfo(epoch: nat)     // a report reaches the supervisor, late, out of order, or again

  /** The supervisor announces when its epoch is the number of announcements so far. */
  ghost predicate Possible(c: Config, a: Supervised, e: Event) {
    match e
    case Shards(step) => Enabled(c, a.sys, step) && (step.Publish? ==> a.curEpoch == |a.sys.maps|)
    case BlockInfo(epoch) => epoch in a.reported
  }

  /** A report of the next epoch, from whichever shard, advances the supervisor. */
  ghost function Happens(c: Config, a: Supervised, e: Event): Supervised
    requires Possible(c, a, e)
  {
    match e
    case Shards(step) =>
      Supervised(Next(c, a.sys, step),
                 if step.Execute? then a.reported + {a.sys.nodes[step.s].round} else a.reported, a.curEpoch)
    case BlockInfo(epoch) => a.(curEpoch := if a.curEpoch + 1 == epoch then epoch else a.curEpoch)
  }

  ghost function Then(c: Config, a: Supervised, e: Event): Supervised {
    if Possible(c, a, e) then Happens(c, a, e) else a
  }

  ghost function Course(c: Config, events: seq<Event>, n: nat): Supervised
    requires n <= |events|
  {
    if n == 0 then Supervised(Init(c), {}, 0) else Then(c, Course(c, events, n - 1), events[n - 1])
  }

  ghost function SysAt(c: Config, events: seq<Event>, n: nat): System
    requires n <= |events|
  {
    Course(c, events, n).sys
  }

  /** An announcement reaches a shard whose last round is still open. */
  ghost predicate Overtakes(c: Config, a: Supervised, e: Event) {
    Possible(c, a, e) && e.Shards? && e.step.Arrive? && a.sys.nodes[e.step.s].partitionOn
  }

  /** No announcement overtakes a round between the events. */
  ghost predicate Calmly(c: Config, events: seq<Event>, n: nat, m: nat)
    requires n <= m <= |events|
  {
    n < m ==> Calmly(c, events, n, m - 1) && !Overtakes(c, Course(c, events, m - 1), events[m - 1])
  }

  /** None overtakes a round of shard s. */
  ghost predicate CalmAt(c: Config, events: seq<Event>, n: nat, m: nat, s: nat)
    requires n <= m <= |events|
  {
    n < m ==>
      && CalmAt(c, events, n, m - 1, s)
      && !(Overtakes(c, Course(c, events, m - 1), events[m - 1]) && events[m - 1].step.s == s)
  }

  lemma {:induction false} CalmEverywhere(c: Config, events: seq<Event>, n: nat, m: nat, s: nat)
    requires n <= m <= |events| && Calmly(c, events, n, m)
    ensures CalmAt(c, events, n, m, s)
  {
    if n < m {
      CalmEverywhere(c, events, n, m - 1, s);
    }
  }

  // ----- Every run -----

  lemma {:induction false} CourseSync(c: Config, events: seq<Event>, n: nat)
    requires n <= |events|
    ensures Sync(c, SysAt(c, events, n)) && MapsInto(SysAt(c, events, n).maps, c.shardNum)
  {
    if n > 0 {
      CourseSync(c, events, n - 1);
      var a, e := Course(c, events, n - 1), events[n - 1];
      if Possible(c, a, e) && e.Shards? {
        NextSync(c, a.sys, e.step);
        NextMaps(c, a.sys, e.step);
      }
    }
  }

  lemma {:induction false} MapsGrow(c: Config, events: seq<Event>, n: nat, m: nat)
    requires n <= m <= |events|
    ensures SysAt(c, events, n).maps <= SysAt(c, events, m).maps
  {
    if n < m {
      MapsGrow(c, events, n, m - 1);
    }
  }

  ghost predicate EventKeepsTo(c: Config, a: Supervised, e: Event, way: Way, x: Address) {
    Possible(c, a, e) && e.Shards? ==> KeepsTo(c, a.sys, e.step, way, x)
  }

  ghost predicate AllKeepTo(c: Config, events: seq<Event>, n: nat, m: nat, way: Way, x: Address)
    requires n <= m <= |events|
  {
    n < m ==>
      && AllKeepTo(c, events, n, m - 1, way, x)
      && EventKeepsTo(c, Course(c, events, m - 1), events[m - 1], way, x)
  }

  /** As long as every shard that sends keeps to the way, the account stays on it. */
  lemma {:induction false} StaysOnWay(c: Config, events: seq<Event>, n: nat, m: nat, way: Way, x: Address)
    requires n <= m <= |events| && AllKeepTo(c, events, n, m, way, x) && x !in c.brokers
    requires InRange(way, c.shardNum) && OnWay(c, SysAt(c, events, n), way, x)
    ensures OnWay(c, SysAt(c, events, m), way, x)
  {
    if n < m {
      StaysOnWay(c, events, n, m - 1, way, x);
      CourseSync(c, events, m - 1);
      var a, e := Course(c, events, m - 1), events[m - 1];
      if Possible(c, a, e) && e.Shards? {
        NextOnWay(c, a.sys, e.step, way, x);
      }
    }
  }

  /** A shard that no announcement overtakes stays on its track. */
  lemma {:induction false} StaysAhead(c: Config, events: seq<Event>, n: nat, m: nat, s: nat, ahead: nat)
    requires n <= m <= |events| && CalmAt(c, events, n, m, s) && s < |SysAt(c, events, n).nodes|
    requires OnTrack(SysAt(c, events, n).maps, SysAt(c, events, n).nodes[s], ahead)
    ensures var was, sys := SysAt(c, events, n).nodes[s], SysAt(c, events, m);
            && s < |sys.nodes| && OnTrack(sys.maps, sys.nodes[s], ahead)
            && sys.nodes[s].round - sys.nodes[s].turn == was.round - was.turn
  {
    if n < m {
      StaysAhead(c, events, n, m - 1, s, ahead);
      CourseSync(c, events, m - 1);
      var a, e := Course(c, events, m - 1), events[m - 1];
      if Possible(c, a, e) && e.Shards? {
        StaysOnTrack(c, a.sys, e.step, s, ahead);
      }
    }
  }

  // ----- Until the first overtaking -----

  lemma {:induction false} CalmRegular(c: Config, events: seq<Event>, n: nat)
    requires n <= |events| && Calmly(c, events, 0, n)
    ensures Sync(c, SysAt(c, events, n)) && AllRegular(SysAt(c, events, n))
  {
    CourseSync(c, events, n);
    if n > 0 {
      CalmRegular(c, events, n - 1);
      var a, e := Course(c, events, n - 1), events[n - 1];
      if Possible(c, a, e) && e.Shards? {
        NextRegular(c, a.sys, e.step);
      }
    }
  }

  lemma {:induction false} CalmKeepsTo(c: Config, events: seq<Event>, n: nat, maps: seq<PartitionMap>, x: Address)
    requires n <= |events| && Calmly(c, events, 0, n) && SysAt(c, events, n).maps <= maps
    ensures AllKeepTo(c, events, 0, n, Announced(c, maps, x), x)
  {
    if n > 0 {
      MapsGrow(c, events, n - 1, n);
      CalmKeepsTo(c, events, n - 1, maps, x);
      CalmRegular(c, events, n - 1);
      var a, e := Course(c, events, n - 1), events[n - 1];
      if Possible(c, a, e) && e.Shards? {
        RegularKeepsTo(c, a.sys, e.step, maps, x);
      }
    }
  }

  /** Accounts go the way of the announcements. */
  lemma CalmOnWay(c: Config, events: seq<Event>, n: nat, x: Address)
    requires Into(c.home, c.shardNum) && n <= |events| && Calmly(c, events, 0, n) && x !in c.brokers
    ensures var maps := SysAt(c, events, n).maps;
            && InRange(Announced(c, maps, x), c.shardNum)
            && OnWay(c, SysAt(c, events, n), Announced(c, maps, x), x)
  {
    var maps := SysAt(c, events, n).maps;
    CourseSync(c, events, n);
    AnnouncedInRange(c, maps, x);
    InitOnWay(c, maps, x);
    CalmKeepsTo(c, events, n, maps, x);
    StaysOnWay(c, events, 0, n, Announced(c, maps, x), x);
  }

  /** As long as no round is overtaken, a shard outside a round has, for every account it owns, the state of the
      reference ledger. */
  lemma OwnerReadsTruthSoFar(c: Config, events: seq<Event>, n: nat, s: nat, x: Address)
    requires Into(c.home, c.shardNum) && n <= |events| && Calmly(c, events, 0, n) && x !in c.brokers
    requires s < |SysAt(c, events, n).nodes|
    ensures var sys := SysAt(c, events, n);
            sys.nodes[s].phase == Normal && ViewOf(c, sys, s).Owns(x) ==> Same(sys.nodes[s].state, sys.truth, x)
  {
    CourseSync(c, events, n);
    CalmOnWay(c, events, n, x);
    var sys := SysAt(c, events, n);
    if sys.nodes[s].phase == Normal && ViewOf(c, sys, s).Owns(x) {
      NormalReads(c, sys, Announced(c, sys.maps, x), x, s, s);
    }
  }

  // ----- The first overtaking -----

  /** Some shard has got as far as the epoch. */
  ghost predicate Reached(sys: System, epoch: nat) {
    epoch == 0 || exists u :: 0 <= u < |sys.nodes| && sys.nodes[u].round >= epoch
  }

  /** No request takes a shard back. */
  ghost predicate Onward(nodes: seq<Node>) {
    forall u :: 0 <= u < |nodes| && nodes[u].phase.Proposed? ==> nodes[u].phase.request.atid > nodes[u].round
  }

  /** Some shard has finished all announced rounds but the last. */
  ghost predicate Leads(a: Supervised) {
    && Onward(a.sys.nodes)
    && (forall e :: e in a.reported ==> Reached(a.sys, e))
    && Reached(a.sys, a.curEpoch)
    && (a.sys.maps != [] ==> Reached(a.sys, |a.sys.maps| - 1))
  }

  /** A step takes no shard back. */
  lemma RoundsGrow(c: Config, sys: System, step: Step, u: nat)
    requires Enabled(c, sys, step) && Onward(sys.nodes) && u < |sys.nodes|
    ensures |Next(c, sys, step).nodes| == |sys.nodes| && Next(c, sys, step).nodes[u].round >= sys.nodes[u].round
  {
  }

  lemma OnwardStays(c: Config, sys: System, step: Step)
    requires Enabled(c, sys, step) && Onward(sys.nodes)
    ensures Onward(Next(c, sys, step).nodes)
  {
  }

  lemma ReachedStays(c: Config, sys: System, step: Step, epoch: nat)
    requires Enabled(c, sys, step) && Onward(sys.nodes) && Reached(sys, epoch)
    ensures Reached(Next(c, sys, step), epoch)
  {
    if epoch > 0 {
      var u :| 0 <= u < |sys.nodes| && sys.nodes[u].round >= epoch;
      RoundsGrow(c, sys, step, u);
      assert Next(c, sys, step).nodes[u].round >= epoch;
    }
  }

  lemma ThenLeads(c: Config, a: Supervised, e: Event)
    requires Leads(a)
    ensures Leads(Then(c, a, e))
  {
    if Possible(c, a, e) && e.Shards? {
      var next := Then(c, a, e);
      OnwardStays(c, a.sys, e.step);
      forall x | x in a.reported || x == a.curEpoch || x == |a.sys.maps| - 1
        ensures Reached(a.sys, x) ==> Reached(next.sys, x)
      {
        if Reached(a.sys, x) {
          ReachedStays(c, a.sys, e.step, x);
        }
      }
      if e.step.Execute? {
        RoundsGrow(c, a.sys, e.step, e.step.s);
        assert Reached(next.sys, a.sys.nodes[e.step.s].round);
      }
    }
  }

  lemma {:induction false} CourseLeads(c: Config, events: seq<Event>, n: nat)
    requires n <= |events|
    ensures Leads(Course(c, events, n))
  {
    if n > 0 {
      CourseLeads(c, events, n - 1);
      ThenLeads(c, Course(c, events, n - 1), events[n - 1]);
    }
  }

  /** A shard that has sent its accounts for its round, and not heard of the announcement after that round's. */
  ghost predicate WasOpen(maps: seq<PartitionMap>, was: Node) {
    && was.HasSent() && was.turn == was.round && was.heard == |was.modified| == was.round + 1 && was.heard < |maps|
    && was.modified[was.round] == maps[was.round] && was.pm == PmAfter(maps, was.round)
    && (was.phase.Proposed? ==>
          was.phase.request.modified == maps[was.round] && was.phase.request.atid == was.round + 1)
  }

  /** A shard that has finished that round, and not sent for the next. */
  ghost predicate WasClosed(maps: seq<PartitionMap>, was: Node, turn: nat) {
    !was.HasSent() && was.turn == turn && Regular(maps, was)
  }

  /** The first announcement that overtakes a round, the one after the round's own, reaches a shard that has sent its
      accounts for the round and not yet committed it; and every other shard has got that far, or has closed the round
      and not gone beyond. */
  lemma FirstOvertaking(c: Config, events: seq<Event>, n: nat, t: nat)
    requires Into(c.home, c.shardNum) && n < |events| && Calmly(c, events, 0, n)
    requires Overtakes(c, Course(c, events, n), events[n]) && t < |SysAt(c, events, n).nodes|
    ensures var sys := SysAt(c, events, n);
            var was := sys.nodes[events[n].step.s];
            && WasOpen(sys.maps, was) && |sys.maps| == was.round + 2
            && (WasClosed(sys.maps, sys.nodes[t], was.round + 1)
                || (WasOpen(sys.maps, sys.nodes[t]) && sys.nodes[t].round == was.round))
  {
    CalmRegular(c, events, n);
    CourseLeads(c, events, n);
    var sys, s := SysAt(c, events, n), events[n].step.s;
    var u :| 0 <= u < |sys.nodes| && sys.nodes[u].round >= |sys.maps| - 1;
    LastButOne(c, sys, u, s);
    LastButOne(c, sys, u, t);
    Known(c, sys, s, t);
  }

  /** When shard u has finished all announced rounds but the last, the others are at most one behind. */
  lemma LastButOne(c: Config, sys: System, u: nat, t: nat)
    requires Sync(c, sys) && AllRegular(sys) && u < |sys.nodes| && t < |sys.nodes|
    requires sys.nodes[u].turn + 1 >= |sys.maps| > 0
    ensures sys.nodes[t].turn + 1 >= |sys.maps| || WasOpen(sys.maps, sys.nodes[t])
    ensures Regular(sys.maps, sys.nodes[t]) && sys.nodes[t].turn + 2 >= |sys.maps|
  {
    Known(c, sys, u, t);
    assert Regular(sys.maps, sys.nodes[u]) && Regular(sys.maps, sys.nodes[t]);
  }

  // ----- What the overtaken shard makes of it -----

  /** The shard commits its open round. */
  ghost predicate Commits(c: Config, a: Supervised, e: Event, s: nat) {
    Possible(c, a, e) && e.Shards? && e.step.Commit? && e.step.s == s
  }

  ghost predicate NoCommit(c: Config, events: seq<Event>, n: nat, m: nat, s: nat)
    requires n <= m <= |events|
  {
    n < m ==> NoCommit(c, events, n, m - 1, s) && !Commits(c, Course(c, events, m - 1), events[m - 1], s)
  }

  /** The record of a shard in the rest of an open round: a request that is made takes the round's own map, and the
      number of maps there then are. */
  ghost predicate StillOpen(was: Node, now: Node) {
    && now.HasSent() && now.round == was.round && now.turn == was.turn && now.pm == was.pm
    && was.modified <= now.modified
    && now.heard - was.heard == |now.modified| - |was.modified| >= 0
    && (was.phase.Proposed? ==> now.phase == was.phase)
    && (was.phase.Sent? && now.phase.Proposed? ==>
          && |was.modified| <= now.phase.request.atid <= |now.modified|
          && was.round < |was.modified| && now.phase.request.modified == was.modified[was.round])
  }

  lemma StillOpenThen(c: Config, a: Supervised, e: Event, s: nat, was: Node)
    requires s < |a.sys.nodes| && StillOpen(was, a.sys.nodes[s]) && !Commits(c, a, e, s)
    requires was.round < |was.modified|
    ensures |Then(c, a, e).sys.nodes| == |a.sys.nodes| && StillOpen(was, Then(c, a, e).sys.nodes[s])
  {
    if Possible(c, a, e) && e.Shards? {
      OpenNode(c, a.sys, e.step, s);
    }
  }

  /** What a step leaves of the record of a shard that has sent its accounts, unless it is the commit. */
  lemma OpenNode(c: Config, sys: System, step: Step, s: nat)
    requires Enabled(c, sys, step) && s < |sys.nodes| && sys.nodes[s].HasSent() && !(step.Commit? && step.s == s)
    ensures var n := sys.nodes[s];
            && |Next(c, sys, step).nodes| == |sys.nodes|
            && var now := Next(c, sys, step).nodes[s];
            && now.round == n.round && now.turn == n.turn && now.pm == n.pm
            && (if step.Arrive? && step.s == s
                then && now.phase == n.phase && now.heard == n.heard + 1
                     && |now.modified| == |n.modified| + 1 && n.modified <= now.modified
                else now.heard == n.heard && now.modified == n.modified)
            && (now.phase == n.phase
                || (n.phase.Sent? && now.phase.Proposed? && now.phase.request.atid == |n.modified|
                    && n.round < |n.modified| && now.phase.request.modified == n.modified[n.round]))
  {
  }

  lemma {:induction false} StillOpenLater(c: Config, events: seq<Event>, n: nat, m: nat, s: nat)
    requires n <= m <= |events| && s < |SysAt(c, events, n).nodes| && NoCommit(c, events, n, m, s)
    requires SysAt(c, events, n).nodes[s].HasSent()
    requires SysAt(c, events, n).nodes[s].round < |SysAt(c, events, n).nodes[s].modified|
    ensures s < |SysAt(c, events, m).nodes|
    ensures StillOpen(SysAt(c, events, n).nodes[s], SysAt(c, events, m).nodes[s])
  {
    if n < m {
      StillOpenLater(c, events, n, m - 1, s);
      StillOpenThen(c, Course(c, events, m - 1), events[m - 1], s, SysAt(c, events, n).nodes[s]);
    }
  }

  ghost predicate SameOwners(home: Placement, x: PartitionMap, y: PartitionMap) {
    forall a :: OwnerOf(x, home, a) == OwnerOf(y, home, a)
  }

  /** The announcement puts every account it names where it is. */
  ghost predicate ChangesNothing(home: Placement, pm: PartitionMap, late: PartitionMap) {
    forall a :: a in late ==> OwnerOf(pm, home, a) == late[a]
  }

  lemma SameAfterwards(home: Placement, pm: PartitionMap, late: PartitionMap)
    ensures SameOwners(home, pm, pm + late) <==> ChangesNothing(home, pm, late)
  {
    forall a
      ensures OwnerOf(pm, home, a) == OwnerOf(pm + late, home, a) <==> (a in late ==> OwnerOf(pm, home, a) == late[a])
    {
    }
  }

  /** With no round open, the shard places every account where the announcements it has received place it. That says
      nothing of the states it has. */
  ghost predicate UpToDate(c: Config, sys: System, s: nat)
    requires s < |sys.nodes|
  {
    !sys.nodes[s].partitionOn ==>
      && sys.nodes[s].heard <= |sys.maps|
      && SameOwners(c.home, sys.nodes[s].pm, PmAfter(sys.maps, sys.nodes[s].heard))
  }

  /** As long as its rounds are not overtaken, a shard is up to date. */
  lemma CalmIsUpToDate(c: Config, events: seq<Event>, n: nat, s: nat)
    requires n <= |events| && Calmly(c, events, 0, n) && s < |SysAt(c, events, n).nodes|
    ensures UpToDate(c, SysAt(c, events, n), s)
  {
    CalmRegular(c, events, n);
    assert Regular(SysAt(c, events, n).maps, SysAt(c, events, n).nodes[s]);
  }

  ghost predicate AllAnnounced(sys: System) {
    forall s :: 0 <= s < |sys.nodes| ==> sys.nodes[s].heard <= |sys.maps|
  }

  lemma HeardNext(c: Config, sys: System, step: Step)
    requires Enabled(c, sys, step) && AllAnnounced(sys)
    ensures AllAnnounced(Next(c, sys, step))
  {
  }

  lemma {:induction false} HeardAnnounced(c: Config, events: seq<Event>, n: nat)
    requires n <= |events|
    ensures AllAnnounced(SysAt(c, events, n))
  {
    if n > 0 {
      HeardAnnounced(c, events, n - 1);
      var a, e := Course(c, events, n - 1), events[n - 1];
      if Possible(c, a, e) && e.Shards? {
        HeardNext(c, a.sys, e.step);
      }
    }
  }

  /** The record still has announcement k, for the next round; and it has a second copy of the one before. */
  ghost predicate PutOff(maps: seq<PartitionMap>, n: Node, k: nat) {
    n.round == k < |maps| && k < |n.modified| == n.heard + 1 && n.modified[k] == maps[k]
  }

  /** What the commit of the open round leaves: the round's map, and none after it. If the shard was still collecting,
      its counter leaves out what came before the request was made; otherwise what came is left to the next round. */
  ghost predicate ClosedAs(maps: seq<PartitionMap>, was: Node, closed: Node) {
    && closed.phase == Normal && !closed.partitionOn && closed.turn == was.turn + 1
    && closed.heard >= was.round + 2 && |maps| >= was.round + 2 && closed.pm == PmAfter(maps, was.round + 1)
    && (if was.phase.Proposed? then PutOff(maps, closed, was.round + 1) else closed.round >= was.round + 2)
    && (was.phase.Sent? && closed.heard == was.round + 2 ==> closed.round == |closed.modified| == was.round + 2)
  }

  lemma ClosedNode(c: Config, maps: seq<PartitionMap>, was: Node, now: Node, s: nat)
    requires WasOpen(maps, was) && StillOpen(Arrived(was, maps[was.heard]), now) && now.phase.Proposed?
    requires RecordOk(now)
    ensures ClosedAs(maps, was, Committed(c, now, s, now.phase.request))
  {
    var hears := Arrived(was, maps[was.heard]);
    assert hears.modified[was.round] == maps[was.round] && hears.modified[was.round + 1] == maps[was.round + 1];
    assert |now.modified| >= was.round + 2 && now.modified[was.round + 1] == hears.modified[was.round + 1];
  }

  lemma ClosedLater(maps: seq<PartitionMap>, later: seq<PartitionMap>, was: Node, closed: Node)
    requires ClosedAs(maps, was, closed) && maps <= later
    ensures ClosedAs(later, was, closed)
  {
    PmPrefix(maps, later, was.round + 1);
  }

  /** A shard in that state stays in it until it commits or is overtaken: so all shards that the first overtaking
      announcement finds in the round it overtakes are as FirstOvertaking has them. */
  lemma {:induction false} StaysOpen(c: Config, events: seq<Event>, n: nat, m: nat, s: nat)
    requires n <= m <= |events| && s < |SysAt(c, events, n).nodes| && NoCommit(c, events, n, m, s)
    requires CalmAt(c, events, n, m, s) && WasOpen(SysAt(c, events, n).maps, SysAt(c, events, n).nodes[s])
    ensures s < |SysAt(c, events, m).nodes| && WasOpen(SysAt(c, events, m).maps, SysAt(c, events, m).nodes[s])
  {
    if n < m {
      StaysOpen(c, events, n, m - 1, s);
      CourseSync(c, events, m - 1);
      var a, e := Course(c, events, m - 1), events[m - 1];
      if Possible(c, a, e) && e.Shards? {
        OpenNext(c, a.sys, e.step, s);
      }
    }
  }

  lemma OpenNext(c: Config, sys: System, step: Step, s: nat)
    requires Sync(c, sys) && Enabled(c, sys, step) && s < |sys.nodes| && WasOpen(sys.maps, sys.nodes[s])
    requires step != Arrive(s) && step != Commit(s)
    ensures |Next(c, sys, step).nodes| == |sys.nodes| && WasOpen(Next(c, sys, step).maps, Next(c, sys, step).nodes[s])
  {
    Known(c, sys, s, s);
    OpenNode(c, sys, step, s);
    PmPrefix(sys.maps, Next(c, sys, step).maps, sys.nodes[s].round);
  }

  /** The open round of shard s is overtaken by event n, and closed by event m, the first commit afterwards. */
  ghost predicate OvertakenTill(c: Config, events: seq<Event>, n: nat, m: nat, s: nat)
    requires n < m < |events|
  {
    && s < |SysAt(c, events, n).nodes| && WasOpen(SysAt(c, events, n).maps, SysAt(c, events, n).nodes[s])
    && Overtakes(c, Course(c, events, n), events[n]) && events[n].step.s == s
    && NoCommit(c, events, n + 1, m, s) && Commits(c, Course(c, events, m), events[m], s)
  }

  lemma OvertakenStart(c: Config, events: seq<Event>, n: nat, m: nat, s: nat)
    requires n < m < |events| && OvertakenTill(c, events, n, m, s)
    ensures var before, after := SysAt(c, events, n), SysAt(c, events, n + 1);
            && s < |after.nodes| && after.nodes[s] == Arrived(before.nodes[s], before.maps[before.nodes[s].heard])
            && after.nodes[s].HasSent() && after.nodes[s].round < |after.nodes[s].modified|
  {
    var a := Course(c, events, n);
    assert SysAt(c, events, n + 1) == Next(c, a.sys, events[n].step);
  }

  lemma OpenTill(c: Config, events: seq<Event>, n: nat, m: nat, s: nat)
    requires n < m < |events| && OvertakenTill(c, events, n, m, s)
    ensures s < |SysAt(c, events, m).nodes|
    ensures StillOpen(SysAt(c, events, n + 1).nodes[s], SysAt(c, events, m).nodes[s])
  {
    OvertakenStart(c, events, n, m, s);
    StillOpenLater(c, events, n + 1, m, s);
  }

  /** The shard after its commit. */
  lemma OvertakenCommit(c: Config, events: seq<Event>, n: nat, m: nat, s: nat)
    requires n < m < |events| && OvertakenTill(c, events, n, m, s)
    ensures var sys := SysAt(c, events, m + 1);
            && s < |sys.nodes| && sys.nodes[s].heard <= |sys.maps|
            && ClosedAs(sys.maps, SysAt(c, events, n).nodes[s], sys.nodes[s])
  {
    OvertakenStart(c, events, n, m, s);
    OpenTill(c, events, n, m, s);
    CourseSync(c, events, m);
    var before, sys := SysAt(c, events, n), SysAt(c, events, m);
    Known(c, sys, s, s);
    ClosedNode(c, before.maps, before.nodes[s], sys.nodes[s], s);
    var closed := Committed(c, sys.nodes[s], s, sys.nodes[s].phase.request);
    assert SysAt(c, events, m + 1).nodes[s] == closed;
    MapsGrow(c, events, n, m + 1);
    ClosedLater(before.maps, SysAt(c, events, m + 1).maps, before.nodes[s], closed);
    HeardAnnounced(c, events, m + 1);
  }

  /** A shard that places by the first q announcements. */
  lemma UpToDateIs(c: Config, sys: System, s: nat, q: nat)
    requires s < |sys.nodes| && !sys.nodes[s].partitionOn && q < sys.nodes[s].heard <= |sys.maps|
    requires sys.nodes[s].pm == PmAfter(sys.maps, q)
    ensures UpToDate(c, sys, s) <==> SameOwners(c.home, PmAfter(sys.maps, q), PmAfter(sys.maps, sys.nodes[s].heard))
  {
  }

  lemma NextChanges(home: Placement, maps: seq<PartitionMap>, q: nat)
    requires q < |maps|
    ensures SameOwners(home, PmAfter(maps, q), PmAfter(maps, q + 1))
       <==> ChangesNothing(home, PmAfter(maps, q), maps[q])
  {
    var pm := PmAfter(maps, q);
    SameAfterwards(home, pm, maps[q]);
    assert PmAfter(maps, q + 1) == pm + maps[q];
  }

  lemma ByAnnouncements(c: Config, sys: System, s: nat, q: nat)
    requires s < |sys.nodes| && !sys.nodes[s].partitionOn && q < sys.nodes[s].heard <= |sys.maps|
    requires sys.nodes[s].pm == PmAfter(sys.maps, q)
    ensures UpToDate(c, sys, s) <==> SameOwners(c.home, PmAfter(sys.maps, q), PmAfter(sys.maps, sys.nodes[s].heard))
    ensures sys.nodes[s].heard == q + 1 ==>
              (UpToDate(c, sys, s) <==> ChangesNothing(c.home, PmAfter(sys.maps, q), sys.maps[q]))
  {
    UpToDateIs(c, sys, s, q);
    NextChanges(c.home, sys.maps, q);
  }

  /** By which announcements it places accounts. When the overtaken shard has closed its round, it is up to date if and
      only if the announcements that came meanwhile change no owner; and if only one came, if and only if that one puts
      every account it names where the map of the open round leaves it. */
  lemma OvertakenExactly(c: Config, events: seq<Event>, n: nat, m: nat, s: nat)
    requires n < m < |events| && OvertakenTill(c, events, n, m, s)
    ensures var r, sys := SysAt(c, events, n).nodes[s].round, SysAt(c, events, m + 1);
            && s < |sys.nodes| && !sys.nodes[s].partitionOn && r + 2 <= sys.nodes[s].heard <= |sys.maps|
            && (UpToDate(c, sys, s) <==>
                  SameOwners(c.home, PmAfter(sys.maps, r + 1), PmAfter(sys.maps, sys.nodes[s].heard)))
            && (sys.nodes[s].heard == r + 2 ==>
                  (UpToDate(c, sys, s) <==> ChangesNothing(c.home, PmAfter(sys.maps, r + 1), sys.maps[r + 1])))
  {
    OvertakenCommit(c, events, n, m, s);
    ByAnnouncements(c, SysAt(c, events, m + 1), s, SysAt(c, events, n).nodes[s].round + 1);
  }

  // ----- For good -----

  /** Nothing that the shard can still apply from its record names the account. */
  ghost predicate Free(n: Node, a: Address) {
    && (forall j :: n.round <= j < |n.modified| ==> a !in n.modified[j])
    && (n.phase.Proposed? ==> a !in n.phase.request.modified && n.phase.request.atid > n.round)
  }

  ghost predicate Unmentioned(maps: seq<PartitionMap>, from: nat, a: Address) {
    forall j :: from <= j < |maps| ==> a !in maps[j]
  }

  lemma FreeStays(c: Config, sys: System, step: Step, s: nat, a: Address)
    requires Enabled(c, sys, step) && s < |sys.nodes| && Free(sys.nodes[s], a)
    requires Unmentioned(sys.maps, sys.nodes[s].heard, a)
    ensures |Next(c, sys, step).nodes| == |sys.nodes| && Free(Next(c, sys, step).nodes[s], a)
    ensures OwnerOf(Next(c, sys, step).nodes[s].pm, c.home, a) == OwnerOf(sys.nodes[s].pm, c.home, a)
    ensures Next(c, sys, step).nodes[s].heard >= sys.nodes[s].heard
  {
  }

  lemma {:induction false} OwnerUnmentioned(home: Placement, maps: seq<PartitionMap>, from: nat, k: nat, a: Address)
    requires from <= k <= |maps| && Unmentioned(maps, from, a)
    ensures OwnerOf(PmAfter(maps, k), home, a) == OwnerOf(PmAfter(maps, from), home, a)
  {
    if from < k {
      OwnerUnmentioned(home, maps, from, k - 1, a);
    }
  }

  /** A shard that, with no map left in its record for the account, places it wrongly, does so until an announcement
      names the account again: a skipped announcement is never made up for. */
  lemma {:induction false} WrongForGood(c: Config, events: seq<Event>, n: nat, m: nat, s: nat, a: Address)
    requires n <= m <= |events| && s < |SysAt(c, events, n).nodes| && Free(SysAt(c, events, n).nodes[s], a)
    requires Unmentioned(SysAt(c, events, m).maps, SysAt(c, events, n).nodes[s].heard, a)
    ensures var before, sys := SysAt(c, events, n), SysAt(c, events, m);
            && s < |sys.nodes| && Free(sys.nodes[s], a)
            && before.nodes[s].heard <= sys.nodes[s].heard <= |sys.maps| && before.nodes[s].heard <= |before.maps|
            && OwnerOf(sys.nodes[s].pm, c.home, a) == OwnerOf(before.nodes[s].pm, c.home, a)
            && OwnerOf(PmAfter(sys.maps, sys.nodes[s].heard), c.home, a)
               == OwnerOf(PmAfter(before.maps, before.nodes[s].heard), c.home, a)
  {
    var from := SysAt(c, events, n).nodes[s].heard;
    FreeLater(c, events, n, m, s, a);
    HeardAnnounced(c, events, n);
    HeardAnnounced(c, events, m);
    MapsGrow(c, events, n, m);
    PmPrefix(SysAt(c, events, n).maps, SysAt(c, events, m).maps, from);
    OwnerUnmentioned(c.home, SysAt(c, events, m).maps, from, SysAt(c, events, m).nodes[s].heard, a);
  }

  lemma {:induction false} FreeLater(c: Config, events: seq<Event>, n: nat, m: nat, s: nat, a: Address)
    requires n <= m <= |events| && s < |SysAt(c, events, n).nodes| && Free(SysAt(c, events, n).nodes[s], a)
    requires Unmentioned(SysAt(c, events, m).maps, SysAt(c, events, n).nodes[s].heard, a)
    ensures var before, now := SysAt(c, events, n).nodes[s], SysAt(c, events, m);
            && s < |now.nodes| && Free(now.nodes[s], a) && now.nodes[s].heard >= before.heard
            && OwnerOf(now.nodes[s].pm, c.home, a) == OwnerOf(before.pm, c.home, a)
  {
    if n < m {
      MapsGrow(c, events, m - 1, m);
      FreeLater(c, events, n, m - 1, s, a);
      var a', e := Course(c, events, m - 1), events[m - 1];
      if Possible(c, a', e) && e.Shards? {
        FreeStays(c, a'.sys, e.step, s, a);
      }
    }
  }

  /** An announcement that comes while a shard still collects, and that moves an account, is never made up for: until
      another announcement names the account, the shard places it where it was. */
  lemma SkippedForGood(c: Config, events: seq<Event>, n: nat, m: nat, k: nat, s: nat, a: Address)
    requires n < m < k <= |events| && OvertakenTill(c, events, n, m, s)
    requires var was := SysAt(c, events, n).nodes[s];
             && was.phase.Sent? && SysAt(c, events, m + 1).nodes[s].heard == was.round + 2
             && Unmentioned(SysAt(c, events, k).maps, was.round + 2, a)
    ensures var r, sys := SysAt(c, events, n).nodes[s].round, SysAt(c, events, k);
            && s < |sys.nodes| && r + 2 <= sys.nodes[s].heard <= |sys.maps|
            && OwnerOf(sys.nodes[s].pm, c.home, a) == OwnerOf(PmAfter(sys.maps, r + 1), c.home, a)
            && OwnerOf(PmAfter(sys.maps, sys.nodes[s].heard), c.home, a)
               == OwnerOf(PmAfter(sys.maps, r + 1) + sys.maps[r + 1], c.home, a)
  {
    OvertakenCommit(c, events, n, m, s);
    WrongForGood(c, events, m + 1, k, s, a);
    MapsGrow(c, events, m + 1, k);
    var r := SysAt(c, events, n).nodes[s].round;
    PmPrefix(SysAt(c, events, m + 1).maps, SysAt(c, events, k).maps, r + 1);
    PmPrefix(SysAt(c, events, m + 1).maps, SysAt(c, events, k).maps, r + 2);
  }

  // ----- The round after the overtaken one -----

  /** Until its next commit, the round of a shard has the map it had, and a round is only begun on an announcement. */
  ghost predicate Holds(was: Node, n: Node) {
    && n.round == was.round < |was.modified| <= |n.modified| && n.pm == was.pm && n.turn == was.turn
    && n.modified[was.round] == was.modified[was.round]
    && |n.modified| - |was.modified| == n.heard - was.heard
    && (n.partitionOn ==> n.heard > was.heard)
    && (n.phase.Proposed? ==> n.phase.request.atid > |was.modified|)
  }

  lemma HoldsThen(c: Config, sys: System, step: Step, s: nat, was: Node)
    requires Sync(c, sys) && Enabled(c, sys, step) && s < |sys.nodes| && Holds(was, sys.nodes[s]) && step != Commit(s)
    ensures |Next(c, sys, step).nodes| == |sys.nodes| && Holds(was, Next(c, sys, step).nodes[s])
  {
    Known(c, sys, s, s);
    if step != Arrive(s) && !step.Propose? {
      RecordUnmoved(c, sys, step, s);
    }
  }

  lemma {:induction false} HoldsLater(c: Config, events: seq<Event>, n: nat, m: nat, s: nat, was: Node)
    requires n <= m <= |events| && s < |SysAt(c, events, n).nodes| && Holds(was, SysAt(c, events, n).nodes[s])
    requires NoCommit(c, events, n, m, s)
    ensures s < |SysAt(c, events, m).nodes| && Holds(was, SysAt(c, events, m).nodes[s])
  {
    if n < m {
      HoldsLater(c, events, n, m - 1, s, was);
      CourseSync(c, events, m - 1);
      var a, e := Course(c, events, m - 1), events[m - 1];
      if Possible(c, a, e) && e.Shards? {
        HoldsThen(c, a.sys, e.step, s, was);
      }
    }
  }

  lemma HeldCommit(c: Config, n: Node, s: nat, was: Node)
    requires Holds(was, n) && RecordOk(n) && n.partitionOn && n.phase.Proposed?
    ensures var after := Committed(c, n, s, n.phase.request);
            && after.pm == was.pm + was.modified[was.round] && !after.partitionOn && after.turn == was.turn + 1
            && after.heard == n.heard > was.heard
            && (n.heard == was.heard + 1 ==> after.round == |after.modified|)
  {
  }

  /** What the next commit leaves of a shard that has a map in its record for the next round already. */
  ghost predicate Followed(was: Node, n: Node) {
    && n.phase == Normal && !n.partitionOn && n.heard > was.heard && was.round < |was.modified|
    && n.pm == was.pm + was.modified[was.round] && n.turn == was.turn + 1
    && (n.heard == was.heard + 1 ==> n.round == |n.modified|)
  }

  lemma NextCommit(c: Config, events: seq<Event>, n: nat, k: nat, s: nat)
    requires n <= k < |events| && s < |SysAt(c, events, n).nodes|
    requires var was := SysAt(c, events, n).nodes[s];
             !was.partitionOn && was.phase == Normal && was.round < |was.modified|
    requires NoCommit(c, events, n, k, s) && Commits(c, Course(c, events, k), events[k], s)
    ensures var was, sys := SysAt(c, events, n).nodes[s], SysAt(c, events, k + 1);
            s < |sys.nodes| && sys.nodes[s].heard <= |sys.maps| && Followed(was, sys.nodes[s])
  {
    var was, sys := SysAt(c, events, n).nodes[s], SysAt(c, events, k);
    HoldsLater(c, events, n, k, s, was);
    CourseSync(c, events, k);
    Known(c, sys, s, s);
    HeldCommit(c, sys.nodes[s], s, was);
    HeardAnnounced(c, events, k);
    assert SysAt(c, events, k + 1) == Next(c, sys, events[k].step);
  }

  lemma NextApplies(maps: seq<PartitionMap>, was: Node, closed: Node, n: Node)
    requires ClosedAs(maps, was, closed) && was.phase.Proposed? && closed.heard == was.round + 2
    requires was.turn == was.round
    requires Followed(closed, n) && n.heard <= |maps|
    ensures n.heard >= was.round + 3 && n.pm == PmAfter(maps, was.round + 2)
    ensures n.heard == was.round + 3 ==> OnTrack(maps, n, 1)
  {
  }

  lemma ClosedStill(c: Config, events: seq<Event>, n: nat, m: nat, k: nat, s: nat)
    requires n < m < k <= |events| && OvertakenTill(c, events, n, m, s)
    ensures s < |SysAt(c, events, m + 1).nodes|
    ensures SysAt(c, events, n).nodes[s].turn == SysAt(c, events, n).nodes[s].round
    ensures ClosedAs(SysAt(c, events, k).maps, SysAt(c, events, n).nodes[s], SysAt(c, events, m + 1).nodes[s])
    ensures SysAt(c, events, n).nodes[s].phase.Proposed? ==>
              var closed := SysAt(c, events, m + 1).nodes[s];
              !closed.partitionOn && closed.phase == Normal && closed.round < |closed.modified|
  {
    OvertakenCommit(c, events, n, m, s);
    MapsGrow(c, events, m + 1, k);
    var before := SysAt(c, events, m + 1);
    ClosedLater(before.maps, SysAt(c, events, k).maps, SysAt(c, events, n).nodes[s], before.nodes[s]);
  }

  lemma OneBehindPlaced(c: Config, events: seq<Event>, n: nat, m: nat, k: nat, s: nat)
    requires n < m < k < |events| && OvertakenTill(c, events, n, m, s) && SysAt(c, events, n).nodes[s].phase.Proposed?
    requires SysAt(c, events, m + 1).nodes[s].heard == SysAt(c, events, n).nodes[s].round + 2
    requires NoCommit(c, events, m + 1, k, s) && Commits(c, Course(c, events, k), events[k], s)
    ensures var r, sys := SysAt(c, events, n).nodes[s].round, SysAt(c, events, k + 1);
            && s < |sys.nodes| && !sys.nodes[s].partitionOn && r + 3 <= sys.nodes[s].heard <= |sys.maps|
            && sys.nodes[s].pm == PmAfter(sys.maps, r + 2)
            && (sys.nodes[s].heard == r + 3 ==> OnTrack(sys.maps, sys.nodes[s], 1))
  {
    var was, closed, sys := SysAt(c, events, n).nodes[s], SysAt(c, events, m + 1).nodes[s], SysAt(c, events, k + 1);
    ClosedStill(c, events, n, m, k + 1, s);
    NextCommit(c, events, m + 1, k, s);
    assert Followed(closed, sys.nodes[s]) && sys.nodes[s].heard <= |sys.maps|;
    assert ClosedAs(sys.maps, was, closed) && was.phase.Proposed? && closed.heard == was.round + 2;
    NextApplies(sys.maps, was, closed, sys.nodes[s]);
  }

  /** A shard that was overtaken when its request was in consensus performs the announcement in the next round, and so
      skips the one that has begun that round: when it has closed that one too, it is up to date if and only if the
      announcements after the overtaking one change no owner. If only one came, it is one announcement ahead from
      then on. */
  lemma OneBehind(c: Config, events: seq<Event>, n: nat, m: nat, k: nat, s: nat)
    requires n < m < k < |events| && OvertakenTill(c, events, n, m, s) && SysAt(c, events, n).nodes[s].phase.Proposed?
    requires SysAt(c, events, m + 1).nodes[s].heard == SysAt(c, events, n).nodes[s].round + 2
    requires NoCommit(c, events, m + 1, k, s) && Commits(c, Course(c, events, k), events[k], s)
    ensures var r, sys := SysAt(c, events, n).nodes[s].round, SysAt(c, events, k + 1);
            && s < |sys.nodes| && !sys.nodes[s].partitionOn && r + 3 <= sys.nodes[s].heard <= |sys.maps|
            && sys.nodes[s].pm == PmAfter(sys.maps, r + 2)
            && (UpToDate(c, sys, s) <==>
                  SameOwners(c.home, PmAfter(sys.maps, r + 2), PmAfter(sys.maps, sys.nodes[s].heard)))
            && (sys.nodes[s].heard == r + 3 ==>
                  && OnTrack(sys.maps, sys.nodes[s], 1)
                  && (UpToDate(c, sys, s) <==> ChangesNothing(c.home, PmAfter(sys.maps, r + 2), sys.maps[r + 2])))
  {
    OneBehindPlaced(c, events, n, m, k, s);
    var r, sys := SysAt(c, events, n).nodes[s].round, SysAt(c, events, k + 1);
    ByAnnouncements(c, sys, s, r + 2);
  }

  // ----- One announcement ahead -----

  /** A shard that has skipped one announcement while it collected performs every later one in the round in which the
      others perform the one before, and its counter is one more than theirs, until it is overtaken again. */
  lemma OneAhead(c: Config, events: seq<Event>, n: nat, m: nat, k: nat, s: nat)
    requires n < m < k <= |events| && OvertakenTill(c, events, n, m, s) && CalmAt(c, events, m + 1, k, s)
    requires var was := SysAt(c, events, n).nodes[s];
             was.phase.Sent? && SysAt(c, events, m + 1).nodes[s].heard == was.round + 2
    ensures var sys := SysAt(c, events, k);
            && s < |sys.nodes| && OnTrack(sys.maps, sys.nodes[s], 1) && sys.nodes[s].round == sys.nodes[s].turn + 1
  {
    OvertakenCommit(c, events, n, m, s);
    StaysAhead(c, events, m + 1, k, s, 1);
  }

  /** A shard that has never been overtaken performs each announcement in its turn. */
  lemma OnTime(c: Config, events: seq<Event>, k: nat, u: nat)
    requires k <= |events| && CalmAt(c, events, 0, k, u) && u < c.shardNum
    ensures var sys := SysAt(c, events, k);
            && u < |sys.nodes| && OnTrack(sys.maps, sys.nodes[u], 0) && sys.nodes[u].round == sys.nodes[u].turn
  {
    StaysAhead(c, events, 0, k, u, 0);
  }

  /** So the counters of the two are one apart whenever they have gone through as many rounds. */
  lemma CountersApart(c: Config, events: seq<Event>, n: nat, m: nat, k: nat, s: nat, u: nat)
    requires n < m < k <= |events| && OvertakenTill(c, events, n, m, s) && CalmAt(c, events, m + 1, k, s)
    requires var was := SysAt(c, events, n).nodes[s];
             was.phase.Sent? && SysAt(c, events, m + 1).nodes[s].heard == was.round + 2
    requires CalmAt(c, events, 0, k, u) && u < c.shardNum
    ensures var sys := SysAt(c, events, k);
            && s < |sys.nodes| && u < |sys.nodes|
            && (sys.nodes[s].turn == sys.nodes[u].turn ==> sys.nodes[s].round == sys.nodes[u].round + 1)
            && (sys.nodes[s].phase == Normal && sys.nodes[u].phase == Normal ==>
                  sys.nodes[s].turn == sys.nodes[u].turn)
  {
    OneAhead(c, events, n, m, k, s);
    OnTime(c, events, k, u);
    CourseSync(c, events, k);
    if SysAt(c, events, k).nodes[s].phase == Normal && SysAt(c, events, k).nodes[u].phase == Normal {
      SameTurn(c, SysAt(c, events, k), s, u);
    }
  }
}
