/** After an announcement has overtaken rounds and been skipped: some shards perform every announcement one round
    before the others. When exactly an account still has one owner that reads the truth, in terms of what the
    announcements move. */
module ShardsAhead {
  import opened Addresses
  import opened Transactions
  import opened Reshardings
  import opened ReshardingViews
  import opened Overtakings
  import opened Exchanges

  // ----- By which announcements the shards place an account -----

  /** By how many announcements each shard is ahead: no shard by more than one. */
  ghost predicate OnTracks(sys: System, ahead: seq<nat>) {
    && |ahead| == |sys.nodes|
    && forall s :: 0 <= s < |ahead| ==> ahead[s] <= 1 && OnTrack(sys.maps, sys.nodes[s], ahead[s])
  }

  ghost predicate PlacesAt(c: Config, maps: seq<PartitionMap>, n: Node, ahead: nat, x: Address) {
    n.turn + ahead <= |maps| && OwnerOf(n.pm, c.home, x) == Announces(c, maps, n.turn + ahead, x)
  }

  /** Every shard puts the account where the announcements do that it has performed. */
  ghost predicate AllPlace(c: Config, sys: System, ahead: seq<nat>, x: Address)
    requires |ahead| == |sys.nodes|
  {
    forall s :: 0 <= s < |ahead| ==> PlacesAt(c, sys.maps, sys.nodes[s], ahead[s], x)
  }

  lemma PlacesNext(c: Config, sys: System, step: Step, s: nat, ahead: nat, x: Address)
    requires Sync(c, sys) && Enabled(c, sys, step) && s < |sys.nodes|
    requires OnTrack(sys.maps, sys.nodes[s], ahead) && PlacesAt(c, sys.maps, sys.nodes[s], ahead, x)
    requires step == Arrive(s) ==> !sys.nodes[s].partitionOn
    ensures var next := Next(c, sys, step);
            && |next.nodes| == |sys.nodes| && OnTrack(next.maps, next.nodes[s], ahead)
            && PlacesAt(c, next.maps, next.nodes[s], ahead, x)
  {
    var next := Next(c, sys, step);
    StaysOnTrack(c, sys, step, s, ahead);
    PlacesThen(c, sys.maps, next.maps, sys.nodes[s], next.nodes[s], ahead, x);
  }

  lemma PlacesThen(c: Config, maps: seq<PartitionMap>, later: seq<PartitionMap>, n: Node, next: Node, ahead: nat,
                   x: Address)
    requires PlacesAt(c, maps, n, ahead, x) && maps <= later
    requires if next.turn == n.turn then next.pm == n.pm
             else && next.turn == n.turn + 1 && n.turn + ahead < |maps|
                  && next.pm == n.pm + maps[n.turn + ahead]
    ensures PlacesAt(c, later, next, ahead, x)
  {
    PmPrefix(maps, later, n.turn + ahead);
  }

  lemma {:induction false} PlacesLater(c: Config, events: seq<Event>, n: nat, m: nat, ahead: seq<nat>, x: Address,
                                       s: nat)
    requires n <= m <= |events| && Calmly(c, events, n, m) && OnTracks(SysAt(c, events, n), ahead)
    requires AllPlace(c, SysAt(c, events, n), ahead, x) && s < |ahead|
    ensures var sys := SysAt(c, events, m);
            && |sys.nodes| == |ahead| && OnTrack(sys.maps, sys.nodes[s], ahead[s])
            && PlacesAt(c, sys.maps, sys.nodes[s], ahead[s], x)
  {
    if n < m {
      PlacesLater(c, events, n, m - 1, ahead, x, s);
      CourseSync(c, events, m - 1);
      var a, e := Course(c, events, m - 1), events[m - 1];
      if Possible(c, a, e) && e.Shards? {
        PlacesNext(c, a.sys, e.step, s, ahead[s], x);
      }
    }
  }

  lemma AllPlaceLater(c: Config, events: seq<Event>, n: nat, m: nat, ahead: seq<nat>, x: Address)
    requires n <= m <= |events| && Calmly(c, events, n, m) && OnTracks(SysAt(c, events, n), ahead)
    requires AllPlace(c, SysAt(c, events, n), ahead, x)
    ensures OnTracks(SysAt(c, events, m), ahead) && AllPlace(c, SysAt(c, events, m), ahead, x)
  {
    CourseSync(c, events, n);
    CourseSync(c, events, m);
    forall s | 0 <= s < |ahead|
      ensures var sys := SysAt(c, events, m);
              OnTrack(sys.maps, sys.nodes[s], ahead[s]) && PlacesAt(c, sys.maps, sys.nodes[s], ahead[s], x)
    {
      PlacesLater(c, events, n, m, ahead, x, s);
    }
  }

  // ----- Owners -----

  /** Announcement k leaves the account where it is, or moves it between shards that are equally far ahead. */
  ghost predicate Level(c: Config, maps: seq<PartitionMap>, ahead: seq<nat>, k: nat, x: Address) {
    var from, to := Announces(c, maps, k, x), Announces(c, maps, k + 1, x);
    from < |ahead| && to < |ahead| && ahead[from] == ahead[to]
  }

  /** Between rounds the owners of the account are the shards on which the announcements that they have performed put
      it. */
  lemma OwnersAre(c: Config, sys: System, ahead: seq<nat>, turn: nat, x: Address, s: nat)
    requires OnTracks(sys, ahead) && AllPlace(c, sys, ahead, x) && Begins(sys, turn) && s < |sys.nodes|
    ensures turn + ahead[s] <= |sys.maps|
    ensures ViewOf(c, sys, s).Owns(x) <==> Announces(c, sys.maps, turn + ahead[s], x) == s
  {
    assert PlacesAt(c, sys.maps, sys.nodes[s], ahead[s], x);
  }

  /** The shards that are on time put the account on one shard, and those ahead on another or the same. */
  ghost predicate Split(c: Config, sys: System, ahead: seq<nat>, on: nat, next: nat, x: Address) {
    && |ahead| == |sys.nodes| && on < |ahead| && next < |ahead|
    && forall s :: 0 <= s < |ahead| ==>
         ahead[s] <= 1 && (ViewOf(c, sys, s).Owns(x) <==> (if ahead[s] == 0 then on else next) == s)
  }

  lemma NoOwner(c: Config, sys: System, ahead: seq<nat>, on: nat, next: nat, x: Address, o: nat)
    requires Split(c, sys, ahead, on, next, x) && ahead[on] != ahead[next]
    ensures !OnlyOwner(c, sys, o, x)
  {
    assert ViewOf(c, sys, on).Owns(x) <==> ahead[on] == 0;
    assert ViewOf(c, sys, next).Owns(x) <==> ahead[next] == 1;
    if o < |ahead| {
      assert ViewOf(c, sys, o).Owns(x) <==> (if ahead[o] == 0 then on else next) == o;
    }
  }

  lemma SplitOwner(c: Config, sys: System, ahead: seq<nat>, on: nat, next: nat, x: Address)
    requires Split(c, sys, ahead, on, next, x)
    ensures ahead[on] == ahead[next] ==> OnlyOwner(c, sys, if ahead[on] == 0 then on else next, x)
    ensures (exists o :: OnlyOwner(c, sys, o, x)) <==> ahead[on] == ahead[next]
  {
    if ahead[on] == ahead[next] {
      assert OnlyOwner(c, sys, if ahead[on] == 0 then on else next, x);
    } else {
      forall o
        ensures !OnlyOwner(c, sys, o, x)
      {
        NoOwner(c, sys, ahead, on, next, x, o);
      }
    }
  }

  lemma AnnouncesInRange(c: Config, maps: seq<PartitionMap>, k: nat, x: Address)
    requires Into(c.home, c.shardNum) && MapsInto(maps, c.shardNum)
    ensures Announces(c, maps, k, x) < c.shardNum
  {
    OwnerInRange(c, maps, if k <= |maps| then k else |maps|, x);
  }

  lemma SplitIs(c: Config, sys: System, ahead: seq<nat>, turn: nat, x: Address)
    requires Into(c.home, c.shardNum) && MapsInto(sys.maps, c.shardNum) && |sys.nodes| == c.shardNum
    requires OnTracks(sys, ahead) && AllPlace(c, sys, ahead, x) && Begins(sys, turn)
    ensures Split(c, sys, ahead, Announces(c, sys.maps, turn, x), Announces(c, sys.maps, turn + 1, x), x)
  {
    AnnouncesInRange(c, sys.maps, turn, x);
    AnnouncesInRange(c, sys.maps, turn + 1, x);
    forall s | 0 <= s < |sys.nodes|
      ensures ViewOf(c, sys, s).Owns(x) <==> Announces(c, sys.maps, turn + ahead[s], x) == s
    {
      OwnersAre(c, sys, ahead, turn, x, s);
    }
  }

  /** So the account has exactly one owner if and only if the announcement of the turn, which those ahead have performed
      and the others have not, moves it between shards equally far ahead. */
  lemma OneOwnerExactly(c: Config, sys: System, ahead: seq<nat>, turn: nat, x: Address)
    requires Into(c.home, c.shardNum) && MapsInto(sys.maps, c.shardNum) && |sys.nodes| == c.shardNum
    requires OnTracks(sys, ahead) && AllPlace(c, sys, ahead, x) && Begins(sys, turn)
    ensures (exists o :: OnlyOwner(c, sys, o, x)) <==> Level(c, sys.maps, ahead, turn, x)
    ensures Level(c, sys.maps, ahead, turn, x) ==>
              OnlyOwner(c, sys, Announces(c, sys.maps, turn + ahead[Announces(c, sys.maps, turn, x)], x), x)
  {
    SplitIs(c, sys, ahead, turn, x);
    SplitOwner(c, sys, ahead, Announces(c, sys.maps, turn, x), Announces(c, sys.maps, turn + 1, x), x);
  }

  // ----- As long as announcements are level -----

  ghost predicate LevelTill(c: Config, maps: seq<PartitionMap>, ahead: seq<nat>, first: nat, last: nat, x: Address) {
    forall k: nat :: first <= k <= last ==> Level(c, maps, ahead, k, x)
  }

  /** The account is only ever put on shards that are equally far ahead. */
  lemma {:induction false} LevelChain(c: Config, maps: seq<PartitionMap>, ahead: seq<nat>, first: nat, last: nat,
                                      k: nat, x: Address)
    requires LevelTill(c, maps, ahead, first, last, x) && first <= k <= last + 1 && first <= last
    ensures Announces(c, maps, first, x) < |ahead| && Announces(c, maps, k, x) < |ahead|
    ensures ahead[Announces(c, maps, k, x)] == ahead[Announces(c, maps, first, x)]
  {
    assert Level(c, maps, ahead, first, x);
    if first < k {
      LevelChain(c, maps, ahead, first, last, k - 1, x);
      assert Level(c, maps, ahead, k - 1, x);
    }
  }

  /** A shard that is not equally far ahead is not put in charge of it by its own announcements, nor by theirs. */
  lemma SameHere(c: Config, maps: seq<PartitionMap>, ahead: seq<nat>, first: nat, last: nat, turn: nat, s: nat, d: nat,
                 x: Address)
    requires LevelTill(c, maps, ahead, first, last, x) && first <= turn <= last && s < |ahead| && ahead[s] <= 1
    requires Announces(c, maps, first, x) < |ahead| && d == ahead[Announces(c, maps, first, x)] <= 1
    ensures Announces(c, maps, turn + ahead[s], x) == s <==> Announces(c, maps, turn + d, x) == s
    ensures Announces(c, maps, turn + d, x) == s ==> ahead[s] == d
  {
    LevelChain(c, maps, ahead, first, last, turn + ahead[s], x);
    LevelChain(c, maps, ahead, first, last, turn + d, x);
  }

  /** The way of the announcements for shards so far ahead, up to a turn. */
  function AheadWay(c: Config, maps: seq<PartitionMap>, d: nat, last: nat, x: Address): Way {
    seq<nat>(last + 1, k requires 0 <= k <= last => Announces(c, maps, k + d, x))
  }

  lemma AheadWayAt(c: Config, maps: seq<PartitionMap>, d: nat, last: nat, x: Address, k: nat)
    ensures At(AheadWay(c, maps, d, last, x), k) == Announces(c, maps, (if k <= last then k else last) + d, x)
  {
  }

  lemma AheadWayInRange(c: Config, maps: seq<PartitionMap>, d: nat, last: nat, x: Address)
    requires Into(c.home, c.shardNum) && MapsInto(maps, c.shardNum)
    ensures InRange(AheadWay(c, maps, d, last, x), c.shardNum)
  {
    forall k: nat
      ensures At(AheadWay(c, maps, d, last, x), k) < c.shardNum
    {
      AheadWayAt(c, maps, d, last, x, k);
      AnnouncesInRange(c, maps, (if k <= last then k else last) + d, x);
    }
  }

  /** Such a shard passes the account on along that way. */
  lemma LevelForwards(c: Config, n: Node, maps: seq<PartitionMap>, ahead: seq<nat>, first: nat, last: nat, s: nat,
                      d: nat, x: Address)
    requires LevelTill(c, maps, ahead, first, last, x) && first <= n.turn < last && s < |ahead| && ahead[s] <= 1
    requires Announces(c, maps, first, x) < |ahead| && d == ahead[Announces(c, maps, first, x)] <= 1
    requires OnTrack(maps, n, ahead[s]) && PlacesAt(c, maps, n, ahead[s], x) && n.partitionOn && !n.phase.Proposed?
    ensures Forwards(c, n, AheadWay(c, maps, d, last, x), s, x)
  {
    var way, k := AheadWay(c, maps, d, last, x), n.turn + ahead[s];
    SameHere(c, maps, ahead, first, last, n.turn, s, d, x);
    SameHere(c, maps, ahead, first, last, n.turn + 1, s, d, x);
    AheadWayAt(c, maps, d, last, x, n.turn);
    AheadWayAt(c, maps, d, last, x, n.turn + 1);
    assert PmAfter(maps, k + 1) == PmAfter(maps, k) + maps[k];
    PutOn(c, n, maps[k], PmAfter(maps, k), x);
    ForwardsBy(c, n, way, s, x);
  }

  /** Two maps that put the account on one shard do so after the same announcement. */
  lemma PutOn(c: Config, n: Node, m: PartitionMap, pm: PartitionMap, x: Address)
    requires OwnerOf(n.pm, c.home, x) == OwnerOf(pm, c.home, x)
    ensures OwnerOf(n.pm + m, c.home, x) == OwnerOf(pm + m, c.home, x)
  {
  }

  /** No shard has sent in the turn, or got further. */
  ghost predicate NotBeyond(sys: System, turn: nat) {
    forall s :: 0 <= s < |sys.nodes| ==>
      sys.nodes[s].turn <= turn && (sys.nodes[s].turn == turn ==> !sys.nodes[s].HasSent())
  }

  /** The shards in a stretch of a run in which no announcement overtakes a round, from the beginning of one turn to
      before another, with announcements that are level for the account. */
  ghost predicate Stretch(c: Config, events: seq<Event>, n: nat, m: nat, ahead: seq<nat>, first: nat, last: nat,
                          x: Address) {
    && n <= m <= |events| && Calmly(c, events, n, m) && OnTracks(SysAt(c, events, n), ahead)
    && AllPlace(c, SysAt(c, events, n), ahead, x) && Begins(SysAt(c, events, n), first)
    && NotBeyond(SysAt(c, events, m), last)
  }

  lemma LevelKeepsTo(c: Config, events: seq<Event>, n: nat, j: nat, m: nat, ahead: seq<nat>, first: nat, last: nat,
                     d: nat, x: Address)
    requires Stretch(c, events, n, m, ahead, first, last, x) && n <= j < m
    requires LevelTill(c, SysAt(c, events, m).maps, ahead, first, last, x)
    requires Announces(c, SysAt(c, events, m).maps, first, x) < |ahead|
    requires d == ahead[Announces(c, SysAt(c, events, m).maps, first, x)]
    ensures EventKeepsTo(c, Course(c, events, j), events[j], AheadWay(c, SysAt(c, events, m).maps, d, last, x), x)
  {
    var a, e := Course(c, events, j), events[j];
    if Possible(c, a, e) && e.Shards? && e.step.Send? {
      var s, maps := e.step.s, SysAt(c, events, m).maps;
      TurnOfSend(c, events, n, j, m, s, first, last);
      CalmPrefix(c, events, n, j, m);
      AllPlaceLater(c, events, n, j, ahead, x);
      MapsGrow(c, events, j, m);
      TrackLater(c, a.sys.maps, maps, a.sys.nodes[s], ahead[s], x);
      LevelForwards(c, a.sys.nodes[s], maps, ahead, first, last, s, d, x);
    }
  }

  lemma {:induction false} CalmPrefix(c: Config, events: seq<Event>, n: nat, j: nat, m: nat)
    requires n <= j <= m <= |events| && Calmly(c, events, n, m)
    ensures Calmly(c, events, n, j)
  {
    if j < m {
      CalmPrefix(c, events, n, j, m - 1);
    }
  }

  lemma TrackLater(c: Config, maps: seq<PartitionMap>, later: seq<PartitionMap>, n: Node, ahead: nat, x: Address)
    requires OnTrack(maps, n, ahead) && PlacesAt(c, maps, n, ahead, x) && maps <= later
    ensures OnTrack(later, n, ahead) && PlacesAt(c, later, n, ahead, x)
  {
    PmPrefix(maps, later, n.turn + ahead);
  }

  lemma TurnOfSend(c: Config, events: seq<Event>, n: nat, j: nat, m: nat, s: nat, first: nat, last: nat)
    requires n <= j < m <= |events| && SendsAt(c, Course(c, events, j), events[j], s)
    requires Begins(SysAt(c, events, n), first) && NotBeyond(SysAt(c, events, m), last)
    ensures s < |SysAt(c, events, j).nodes| && |SysAt(c, events, j).nodes| == c.shardNum
    ensures var was := SysAt(c, events, j).nodes[s];
            first <= was.turn < last && was.partitionOn && was.phase == Waiting
  {
    CourseSync(c, events, j);
    Known(c, SysAt(c, events, j), s, s);
    SinceLater(c, events, n, j, s);
    HasSentNow(c, events, j, s);
    SinceLater(c, events, j + 1, m, s);
  }

  lemma {:induction false} LevelKeepTo(c: Config, events: seq<Event>, n: nat, j: nat, m: nat, ahead: seq<nat>,
                                       first: nat, last: nat, d: nat, x: Address)
    requires Stretch(c, events, n, m, ahead, first, last, x) && n <= j <= m
    requires LevelTill(c, SysAt(c, events, m).maps, ahead, first, last, x)
    requires Announces(c, SysAt(c, events, m).maps, first, x) < |ahead|
    requires d == ahead[Announces(c, SysAt(c, events, m).maps, first, x)]
    ensures AllKeepTo(c, events, n, j, AheadWay(c, SysAt(c, events, m).maps, d, last, x), x)
  {
    if n < j {
      LevelKeepTo(c, events, n, j - 1, m, ahead, first, last, d, x);
      LevelKeepsTo(c, events, n, j - 1, m, ahead, first, last, d, x);
    }
  }

  /** At the beginning the account is on that way. */
  lemma StartOnWay(c: Config, sys: System, maps: seq<PartitionMap>, ahead: seq<nat>, first: nat, last: nat, d: nat,
                   o: nat, x: Address)
    requires Sync(c, sys) && Begins(sys, first) && first <= last && sys.maps <= maps
    requires OnTracks(sys, ahead) && AllPlace(c, sys, ahead, x) && OneReader(c, sys, o, x)
    requires LevelTill(c, maps, ahead, first, last, x)
    requires Announces(c, maps, first, x) < |ahead| && d == ahead[Announces(c, maps, first, x)]
    ensures OnWay(c, sys, AheadWay(c, maps, d, last, x), x)
  {
    var way := AheadWay(c, maps, d, last, x);
    AheadWayAt(c, maps, d, last, x, first);
    TrackLater(c, sys.maps, maps, sys.nodes[o], ahead[o], x);
    SameHere(c, maps, ahead, first, last, first, o, d, x);
    assert ViewOf(c, sys, o).Owns(x);
    BeginOnWay(c, sys, first, way, o, x);
  }

  lemma LevelOnWay(c: Config, events: seq<Event>, n: nat, j: nat, m: nat, ahead: seq<nat>, first: nat, last: nat,
                   d: nat, o: nat, x: Address)
    requires Into(c.home, c.shardNum) && x !in c.brokers && first <= last
    requires Stretch(c, events, n, m, ahead, first, last, x) && n <= j <= m
    requires OneReader(c, SysAt(c, events, n), o, x)
    requires LevelTill(c, SysAt(c, events, m).maps, ahead, first, last, x)
    requires Announces(c, SysAt(c, events, m).maps, first, x) < |ahead|
    requires d == ahead[Announces(c, SysAt(c, events, m).maps, first, x)]
    ensures Sync(c, SysAt(c, events, j))
    ensures OnWay(c, SysAt(c, events, j), AheadWay(c, SysAt(c, events, m).maps, d, last, x), x)
  {
    var maps := SysAt(c, events, m).maps;
    CourseSync(c, events, n);
    CourseSync(c, events, j);
    CourseSync(c, events, m);
    MapsGrow(c, events, n, m);
    StartOnWay(c, SysAt(c, events, n), maps, ahead, first, last, d, o, x);
    LevelKeepTo(c, events, n, j, m, ahead, first, last, d, x);
    AheadWayInRange(c, maps, d, last, x);
    StaysOnWay(c, events, n, j, AheadWay(c, maps, d, last, x), x);
  }

  /** As long as all announcements are level for the account, its view is preserved: a shard outside a round that owns
      it reads the truth, and no other such shard owns it. */
  lemma LevelReads(c: Config, events: seq<Event>, n: nat, j: nat, m: nat, ahead: seq<nat>, first: nat, last: nat,
                   o: nat, x: Address, u: nat, s: nat)
    requires Into(c.home, c.shardNum) && x !in c.brokers && first <= last && u < c.shardNum && s < c.shardNum
    requires Stretch(c, events, n, m, ahead, first, last, x) && n <= j <= m
    requires OneReader(c, SysAt(c, events, n), o, x)
    requires LevelTill(c, SysAt(c, events, m).maps, ahead, first, last, x)
    ensures var sys := SysAt(c, events, j);
            && |sys.nodes| == c.shardNum
            && (sys.nodes[u].phase == Normal && ViewOf(c, sys, u).Owns(x) ==>
                  && Same(sys.nodes[u].state, sys.truth, x)
                  && (sys.nodes[s].phase == Normal && ViewOf(c, sys, s).Owns(x) ==> s == u))
  {
    var maps, sys := SysAt(c, events, m).maps, SysAt(c, events, j);
    assert Level(c, maps, ahead, first, x);
    var d := ahead[Announces(c, maps, first, x)];
    LevelOnWay(c, events, n, j, m, ahead, first, last, d, o, x);
    if sys.nodes[u].phase == Normal && ViewOf(c, sys, u).Owns(x) {
      NormalReads(c, sys, AheadWay(c, maps, d, last, x), x, u, s);
    }
  }

  // ----- The exact condition for whole runs -----

  function TurnOf(sys: System): nat {
    if sys.nodes == [] then 0 else sys.nodes[0].turn
  }

  /** Whenever a round begins, the account has one owner, which reads the truth. */
  ghost predicate AlwaysRight(c: Config, events: seq<Event>, n: nat, m: nat, x: Address)
    requires n <= m <= |events|
  {
    forall j :: n <= j <= m && Begins(SysAt(c, events, j), TurnOf(SysAt(c, events, j))) ==> Right(c, events, j, x)
  }

  ghost predicate Right(c: Config, events: seq<Event>, j: nat, x: Address)
    requires j <= |events|
  {
    exists o :: OneReader(c, SysAt(c, events, j), o, x)
  }

  ghost predicate AllPast(sys: System, turn: nat) {
    forall s :: 0 <= s < |sys.nodes| ==> sys.nodes[s].turn >= turn
  }

  /** When the last shard commits, a round begins. */
  lemma LastCommit(c: Config, sys: System, step: Step, turn: nat)
    requires Sync(c, sys) && Enabled(c, sys, step) && !AllPast(sys, turn) && AllPast(Next(c, sys, step), turn)
    ensures Begins(Next(c, sys, step), turn)
  {
    NextSync(c, sys, step);
    var s :| 0 <= s < |sys.nodes| && sys.nodes[s].turn < turn;
    CommitsTo(c, sys, step, s, turn);
    AllBegin(c, Next(c, sys, step), s, turn);
  }

  lemma CommitsTo(c: Config, sys: System, step: Step, s: nat, turn: nat)
    requires Enabled(c, sys, step) && s < |sys.nodes| && sys.nodes[s].turn < turn <= Next(c, sys, step).nodes[s].turn
    ensures s < |Next(c, sys, step).nodes| && Next(c, sys, step).nodes[s].turn == turn
    ensures Next(c, sys, step).nodes[s].phase == Normal
  {
  }

  lemma AllBegin(c: Config, sys: System, s: nat, turn: nat)
    requires Sync(c, sys) && s < |sys.nodes| && sys.nodes[s].turn == turn && sys.nodes[s].phase == Normal
    requires AllPast(sys, turn)
    ensures Begins(sys, turn)
  {
    forall t | 0 <= t < |sys.nodes|
      ensures sys.nodes[t].turn == turn && !sys.nodes[t].HasSent()
    {
      Known(c, sys, s, t);
    }
  }

  /** So between the beginnings of two rounds all rounds in between have a beginning. */
  lemma {:induction false} BeginsBetween(c: Config, events: seq<Event>, n: nat, m: nat, first: nat, turn: nat)
      returns (k: nat)
    requires n <= m <= |events| && Begins(SysAt(c, events, n), first) && first <= turn
    requires AllPast(SysAt(c, events, m), turn) && c.shardNum > 0
    ensures n <= k <= m && Begins(SysAt(c, events, k), turn) && TurnOf(SysAt(c, events, k)) == turn
  {
    CourseSync(c, events, n);
    assert SysAt(c, events, n).nodes[0].turn == first;
    if turn == first {
      k := n;
    } else {
      CourseSync(c, events, m - 1);
      if AllPast(SysAt(c, events, m - 1), turn) {
        k := BeginsBetween(c, events, n, m - 1, first, turn);
      } else {
        k := m;
        var a, e := Course(c, events, m - 1), events[m - 1];
        LastCommit(c, a.sys, e.step, turn);
        CourseSync(c, events, m);
      }
    }
  }

  /** An announcement that has been performed when a round begins stays level or not. */
  lemma LevelThen(c: Config, sys: System, maps: seq<PartitionMap>, ahead: seq<nat>, turn: nat, x: Address)
    requires Into(c.home, c.shardNum) && MapsInto(maps, c.shardNum) && |ahead| == c.shardNum > 0 && sys.maps <= maps
    requires OnTracks(sys, ahead) && Begins(sys, turn)
    ensures Level(c, maps, ahead, turn, x) <==> Level(c, sys.maps, ahead, turn, x)
  {
    assert OnTrack(sys.maps, sys.nodes[0], ahead[0]);
    PmPrefix(sys.maps, maps, turn);
    if turn < |sys.maps| {
      PmPrefix(sys.maps, maps, turn + 1);
    } else {
      AnnouncesInRange(c, maps, turn, x);
      AnnouncesInRange(c, maps, turn + 1, x);
      forall s | 0 <= s < |ahead|
        ensures ahead[s] == 0
      {
        assert OnTrack(sys.maps, sys.nodes[s], ahead[s]);
      }
    }
  }

  lemma RightIsLevel(c: Config, events: seq<Event>, n: nat, m: nat, ahead: seq<nat>, first: nat, last: nat, x: Address,
                     turn: nat)
    requires Into(c.home, c.shardNum) && Stretch(c, events, n, m, ahead, first, last, x) && c.shardNum > 0
    requires Begins(SysAt(c, events, m), last) && first <= turn <= last && AlwaysRight(c, events, n, m, x)
    ensures Level(c, SysAt(c, events, m).maps, ahead, turn, x)
  {
    var k := BeginsBetween(c, events, n, m, first, turn);
    assert Right(c, events, k, x);
    CourseSync(c, events, k);
    CourseSync(c, events, m);
    CalmPrefix(c, events, n, k, m);
    AllPlaceLater(c, events, n, k, ahead, x);
    MapsGrow(c, events, k, m);
    OneOwnerExactly(c, SysAt(c, events, k), ahead, turn, x);
    LevelThen(c, SysAt(c, events, k), SysAt(c, events, m).maps, ahead, turn, x);
  }

  lemma LevelIsRight(c: Config, events: seq<Event>, n: nat, j: nat, m: nat, ahead: seq<nat>, first: nat, last: nat,
                     o: nat, x: Address)
    requires Into(c.home, c.shardNum) && x !in c.brokers && first <= last && c.shardNum > 0
    requires Stretch(c, events, n, m, ahead, first, last, x) && n <= j <= m && OneReader(c, SysAt(c, events, n), o, x)
    requires LevelTill(c, SysAt(c, events, m).maps, ahead, first, last, x)
    requires Begins(SysAt(c, events, j), TurnOf(SysAt(c, events, j)))
    ensures Right(c, events, j, x)
  {
    var sys, maps := SysAt(c, events, j), SysAt(c, events, m).maps;
    var turn := TurnOf(sys);
    CourseSync(c, events, j);
    CourseSync(c, events, m);
    SinceLater(c, events, n, j, 0);
    SinceLater(c, events, j, m, 0);
    assert Level(c, maps, ahead, first, x) && Level(c, maps, ahead, turn, x);
    CalmPrefix(c, events, n, j, m);
    AllPlaceLater(c, events, n, j, ahead, x);
    MapsGrow(c, events, j, m);
    LevelThen(c, sys, maps, ahead, turn, x);
    OneOwnerExactly(c, sys, ahead, turn, x);
    var d := ahead[Announces(c, maps, first, x)];
    LevelOnWay(c, events, n, j, m, ahead, first, last, d, o, x);
    var t :| OnlyOwner(c, sys, t, x);
    BeginReads(c, sys, AheadWay(c, maps, d, last, x), turn, t, x);
  }

  /** The exact condition. While no announcement overtakes, an account has one owner that reads the truth at the
      beginning of every round if and only if every announcement, from the turn of the first to that of the last, that
      moves it does so between shards that are equally far ahead. */
  lemma ViewExactly(c: Config, events: seq<Event>, n: nat, m: nat, ahead: seq<nat>, first: nat, last: nat, o: nat,
                    x: Address)
    requires Into(c.home, c.shardNum) && x !in c.brokers && first <= last
    requires Stretch(c, events, n, m, ahead, first, last, x) && Begins(SysAt(c, events, m), last)
    requires OneReader(c, SysAt(c, events, n), o, x)
    ensures AlwaysRight(c, events, n, m, x) <==> LevelTill(c, SysAt(c, events, m).maps, ahead, first, last, x)
  {
    CourseSync(c, events, n);
    if AlwaysRight(c, events, n, m, x) {
      forall turn: nat | first <= turn <= last
        ensures Level(c, SysAt(c, events, m).maps, ahead, turn, x)
      {
        RightIsLevel(c, events, n, m, ahead, first, last, x, turn);
      }
    }
    if LevelTill(c, SysAt(c, events, m).maps, ahead, first, last, x) {
      forall j | n <= j <= m && Begins(SysAt(c, events, j), TurnOf(SysAt(c, events, j)))
        ensures Right(c, events, j, x)
      {
        LevelIsRight(c, events, n, j, m, ahead, first, last, o, x);
      }
    }
  }
}
