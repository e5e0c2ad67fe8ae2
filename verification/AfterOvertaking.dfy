/** Whole runs of the supervisor that announces on the first report: what becomes of an account after announcements have
    overtaken rounds. */
module AfterOvertakings {
  import opened Addresses
  import opened Transactions
  import opened Reshardings
  import opened ReshardingViews
  import opened Overtakings
  import opened Exchanges
  import opened ShardsAhead

  /** Announcement k is the first that overtakes a round, at event n. */
  ghost predicate FirstAt(c: Config, events: seq<Event>, n: nat, k: nat) {
    && n < |events| && Calmly(c, events, 0, n) && Overtakes(c, Course(c, events, n), events[n])
    && |SysAt(c, events, n).maps| == k + 1 && k > 0
  }

  /** The shards at that time: each has gone through k rounds and not sent for the next, or is about to end the last of
      them. */
  lemma AtFirst(c: Config, events: seq<Event>, n: nat, k: nat, s: nat)
    requires Into(c.home, c.shardNum) && FirstAt(c, events, n, k) && s < c.shardNum
    ensures |SysAt(c, events, n).nodes| == c.shardNum
    ensures var maps, was := SysAt(c, events, n).maps, SysAt(c, events, n).nodes[s];
            && Regular(maps, was)
            && ((was.turn == k && !was.HasSent())
                || (was.turn + 1 == k && was.HasSent() && was.pm + Closing(was) == PmAfter(maps, k)))
  {
    CalmRegular(c, events, n);
    FirstOvertaking(c, events, n, s);
    var maps, was := SysAt(c, events, n).maps, SysAt(c, events, n).nodes[s];
    assert Regular(maps, was);
    assert PmAfter(maps, k) == PmAfter(maps, k - 1) + maps[k - 1];
  }

  // ----- The end of the overtaken round -----

  /** When the next round begins, every shard places accounts by the first k announcements. */
  lemma WavePlaces(c: Config, events: seq<Event>, n: nat, m: nat, k: nat, s: nat)
    requires Into(c.home, c.shardNum) && FirstAt(c, events, n, k) && n <= m <= |events| && s < c.shardNum
    requires Begins(SysAt(c, events, m), k)
    ensures |SysAt(c, events, m).nodes| == c.shardNum && k < |SysAt(c, events, m).maps|
    ensures SysAt(c, events, m).nodes[s].pm == PmAfter(SysAt(c, events, m).maps, k)
  {
    CourseSync(c, events, m);
    AtFirst(c, events, n, k, s);
    HeadsForEarlier(c, events, n, m, s, k - 1);
    MapsGrow(c, events, n, m);
    PmPrefix(SysAt(c, events, n).maps, SysAt(c, events, m).maps, k);
  }

  /** No shard sends before. */
  lemma WaveSendsNothing(c: Config, events: seq<Event>, n: nat, j: nat, m: nat, k: nat, s: nat)
    requires Into(c.home, c.shardNum) && FirstAt(c, events, n, k) && n <= j < m <= |events| && s < c.shardNum
    requires Begins(SysAt(c, events, m), k)
    ensures !SendsAt(c, Course(c, events, j), events[j], s)
  {
    AtFirst(c, events, n, k, s);
    SinceLater(c, events, n, j, s);
    CourseSync(c, events, m);
    if SendsAt(c, Course(c, events, j), events[j], s) {
      HasSentNow(c, events, j, s);
      SinceLater(c, events, j + 1, m, s);
    }
  }

  lemma {:induction false} WaveKeepsTo(c: Config, events: seq<Event>, n: nat, j: nat, m: nat, k: nat, way: Way,
                                       x: Address)
    requires Into(c.home, c.shardNum) && FirstAt(c, events, n, k) && n <= j <= m <= |events|
    requires Begins(SysAt(c, events, m), k)
    ensures AllKeepTo(c, events, n, j, way, x)
  {
    if n < j {
      WaveKeepsTo(c, events, n, j - 1, m, k, way, x);
      CourseSync(c, events, j - 1);
      if events[j - 1].Shards? && events[j - 1].step.Send? && events[j - 1].step.s < c.shardNum {
        WaveSendsNothing(c, events, n, j - 1, m, k, events[j - 1].step.s);
      }
    }
  }

  /** And the account is read right where these put it. */
  lemma WaveReads(c: Config, events: seq<Event>, n: nat, m: nat, k: nat, x: Address)
    requires Into(c.home, c.shardNum) && FirstAt(c, events, n, k) && n <= m <= |events| && x !in c.brokers
    requires Begins(SysAt(c, events, m), k) && c.shardNum > 0
    ensures OneReader(c, SysAt(c, events, m), Announces(c, SysAt(c, events, m).maps, k, x), x)
  {
    var sys := SysAt(c, events, m);
    var way := Announced(c, SysAt(c, events, n).maps, x);
    CalmOnWay(c, events, n, x);
    WaveKeepsTo(c, events, n, m, m, k, way, x);
    StaysOnWay(c, events, n, m, way, x);
    CourseSync(c, events, m);
    AnnouncesInRange(c, sys.maps, k, x);
    WavePlaces(c, events, n, m, k, 0);
    forall s | 0 <= s < |sys.nodes|
      ensures ViewOf(c, sys, s).Owns(x) <==> s == Announces(c, sys.maps, k, x)
    {
      WavePlaces(c, events, n, m, k, s);
    }
    BeginReads(c, sys, way, k, Announces(c, sys.maps, k, x), x);
  }

  /** A stretch without overtaking, from the end of the first overtaken round to the beginning of a later one, by which
      each shard has skipped the overtaking announcement or not. */
  ghost predicate Afterwards(c: Config, events: seq<Event>, n: nat, m: nat, end: nat, k: nat, last: nat,
                             ahead: seq<nat>) {
    && FirstAt(c, events, n, k) && n <= m <= end <= |events| && c.shardNum > 0
    && Begins(SysAt(c, events, m), k) && OnTracks(SysAt(c, events, m), ahead)
    && Calmly(c, events, m, end) && Begins(SysAt(c, events, end), last) && k <= last
  }

  lemma WavePlacesAt(c: Config, events: seq<Event>, n: nat, m: nat, k: nat, s: nat, ahead: nat, x: Address)
    requires Into(c.home, c.shardNum) && FirstAt(c, events, n, k) && n <= m <= |events| && s < c.shardNum
    requires Begins(SysAt(c, events, m), k) && ahead <= 1
    requires Announces(c, SysAt(c, events, m).maps, k + 1, x) == Announces(c, SysAt(c, events, m).maps, k, x)
    ensures |SysAt(c, events, m).nodes| == c.shardNum
    ensures PlacesAt(c, SysAt(c, events, m).maps, SysAt(c, events, m).nodes[s], ahead, x)
  {
    WavePlaces(c, events, n, m, k, s);
    assert SysAt(c, events, m).nodes[s].turn == k;
  }

  /** The exact condition for whole runs, for an account that the skipped announcement leaves where it is: at the
      beginning of every later round it has one owner that reads the truth if and only if every later announcement
      moves it, if at all, between shards that are equally far ahead. */
  lemma WholeRunExactly(c: Config, events: seq<Event>, n: nat, m: nat, end: nat, k: nat, last: nat, ahead: seq<nat>,
                        x: Address)
    requires Into(c.home, c.shardNum) && x !in c.brokers && Afterwards(c, events, n, m, end, k, last, ahead)
    requires var maps := SysAt(c, events, m).maps;
             Announces(c, maps, k + 1, x) == Announces(c, maps, k, x)
    ensures AlwaysRight(c, events, m, end, x) <==> LevelTill(c, SysAt(c, events, end).maps, ahead, k, last, x)
  {
    var sys := SysAt(c, events, m);
    CourseSync(c, events, m);
    CourseSync(c, events, end);
    WaveReads(c, events, n, m, k, x);
    forall s | 0 <= s < |ahead|
      ensures PlacesAt(c, sys.maps, sys.nodes[s], ahead[s], x)
    {
      WavePlacesAt(c, events, n, m, k, s, ahead[s], x);
    }
    ViewExactly(c, events, m, end, ahead, k, last, Announces(c, sys.maps, k, x), x);
  }

  // ----- One exchange -----

  /** Shard s has sent in the turn. */
  ghost predicate HasSentAt(c: Config, events: seq<Event>, j: nat, s: nat, turn: nat)
    requires j <= |events|
  {
    && s < |SysAt(c, events, j).nodes|
    && (SysAt(c, events, j).nodes[s].turn > turn || SysAt(c, events, j).nodes[s].HasSent())
  }

  /** A shard that gets from one turn to the next sends in between. */
  lemma FindSend(c: Config, events: seq<Event>, n: nat, m: nat, s: nat, turn: nat) returns (j: nat)
    requires n <= m <= |events| && s < c.shardNum
    requires !HasSentAt(c, events, n, s, turn) && HasSentAt(c, events, m, s, turn)
    ensures n <= j < m && SendsAt(c, Course(c, events, j), events[j], s)
  {
    j := n;
    while !HasSentAt(c, events, j + 1, s, turn)
      invariant n <= j < m && !HasSentAt(c, events, j, s, turn)
      decreases m - j
    {
      j := j + 1;
    }
    SendsNow(c, events, j, s, turn);
  }

  lemma SendsNow(c: Config, events: seq<Event>, j: nat, s: nat, turn: nat)
    requires j < |events| && s < c.shardNum
    requires !HasSentAt(c, events, j, s, turn) && HasSentAt(c, events, j + 1, s, turn)
    ensures SendsAt(c, Course(c, events, j), events[j], s)
  {
    CourseSync(c, events, j);
    SendsOrCommits(c, Course(c, events, j).sys, events[j].step, s);
  }

  lemma SendsOrCommits(c: Config, sys: System, step: Step, s: nat)
    requires Enabled(c, sys, step) && s < |sys.nodes| && !sys.nodes[s].HasSent()
    requires var n := Next(c, sys, step).nodes[s];
             n.turn > sys.nodes[s].turn || n.HasSent()
    ensures step == Send(s)
  {
  }

  /** The shards that are on track perform, in a turn, the announcement that they are to perform then. */
  ghost predicate OneTurn(c: Config, events: seq<Event>, n: nat, m: nat, turn: nat, ahead: seq<nat>) {
    && n <= m <= |events| && Calmly(c, events, n, m) && OnTracks(SysAt(c, events, n), ahead)
    && Begins(SysAt(c, events, n), turn) && Begins(SysAt(c, events, m), turn + 1)
  }

  lemma {:induction false} TracksLater(c: Config, events: seq<Event>, n: nat, m: nat, s: nat, ahead: nat)
    requires n <= m <= |events| && Calmly(c, events, n, m) && s < |SysAt(c, events, n).nodes|
    requires OnTrack(SysAt(c, events, n).maps, SysAt(c, events, n).nodes[s], ahead)
    ensures s < |SysAt(c, events, m).nodes| && OnTrack(SysAt(c, events, m).maps, SysAt(c, events, m).nodes[s], ahead)
  {
    CalmEverywhere(c, events, n, m, s);
    StaysAhead(c, events, n, m, s, ahead);
  }

  /** A shard sends by that announcement, and its map afterwards is the one before with it. */
  lemma Performs(c: Config, events: seq<Event>, n: nat, m: nat, turn: nat, ahead: seq<nat>, s: nat) returns (j: nat)
    requires OneTurn(c, events, n, m, turn, ahead) && s < c.shardNum
    ensures n <= j < m && SendsAt(c, Course(c, events, j), events[j], s) && |ahead| == c.shardNum
    ensures |SysAt(c, events, n).nodes| == |SysAt(c, events, j).nodes| == |SysAt(c, events, m).nodes| == c.shardNum
    ensures var maps, was := SysAt(c, events, m).maps, SysAt(c, events, j).nodes[s];
            && turn + ahead[s] < |maps| && was.modified != []
            && was.modified[|was.modified| - 1] == maps[turn + ahead[s]]
            && SysAt(c, events, m).nodes[s].pm == SysAt(c, events, n).nodes[s].pm + maps[turn + ahead[s]]
  {
    CourseSync(c, events, n);
    CourseSync(c, events, m);
    j := FindSend(c, events, n, m, s, turn);
    SendInTurn(c, events, n, j, m, s, turn);
    CalmPrefix(c, events, n, j, m);
    TracksLater(c, events, n, j, s, ahead[s]);
    CourseSync(c, events, j);
    Known(c, SysAt(c, events, j), s, s);
    MapsGrow(c, events, j, m);
  }

  /** When the announcements of both put the account on shard t, no other shard owns it afterwards. */
  lemma BothGive(c: Config, events: seq<Event>, n: nat, m: nat, turn: nat, ahead: seq<nat>, o: nat, t: nat, x: Address,
                 s: nat)
    requires OneTurn(c, events, n, m, turn, ahead) && o < |ahead| && t < |ahead| && o != t && s < c.shardNum
    requires OnlyOwner(c, SysAt(c, events, n), o, x)
    requires Puts(SysAt(c, events, m).maps, turn + ahead[o], x, t)
    requires Puts(SysAt(c, events, m).maps, turn + ahead[t], x, t)
    requires ahead[o] == ahead[t] ==> NoClaims(SysAt(c, events, m).maps, turn, ahead, t, x)
    ensures s < |SysAt(c, events, m).nodes|
    ensures ViewOf(c, SysAt(c, events, m), s).Owns(x) <==> s == t
  {
    var j := Performs(c, events, n, m, turn, ahead, s);
    var before := SysAt(c, events, n);
    assert ViewOf(c, before, s).Owns(x) <==> s == o;
    assert ahead[s] <= 1 && ahead[o] <= 1 && ahead[t] <= 1;
  }

  /** No shard but t puts the account on itself. */
  ghost predicate NoClaims(maps: seq<PartitionMap>, turn: nat, ahead: seq<nat>, t: nat, x: Address) {
    forall s :: 0 <= s < |ahead| && s != t ==> !Puts(maps, turn + ahead[s], x, s)
  }

  predicate Puts(maps: seq<PartitionMap>, k: nat, x: Address, t: nat) {
    k < |maps| && x in maps[k] && maps[k][x] == t
  }

  /** Shard o, the only owner, gives the account up to shard t by one announcement, and shard t performs another, or the
      same, in the same exchange. The account is readable at t afterwards if and only if that announcement puts it
      there as well; and if it is the same, unless the other announcement puts it on a third shard. */
  lemma ReadableExactly(c: Config, events: seq<Event>, n: nat, m: nat, turn: nat, ahead: seq<nat>, o: nat, t: nat,
                        x: Address)
    requires OneTurn(c, events, n, m, turn, ahead) && x !in c.brokers && o < |ahead| && t < |ahead| && o != t
    requires OneReader(c, SysAt(c, events, n), o, x)
    requires Puts(SysAt(c, events, m).maps, turn + ahead[o], x, t)
    requires ahead[o] == ahead[t] ==> NoClaims(SysAt(c, events, m).maps, turn, ahead, t, x)
    ensures var sys := SysAt(c, events, m);
            && t < |sys.nodes|
            && (ViewOf(c, sys, t).Owns(x) && Same(sys.nodes[t].state, sys.truth, x)
                <==> Puts(sys.maps, turn + ahead[t], x, t))
  {
    CourseSync(c, events, n);
    CourseSync(c, events, m);
    var before, sys := SysAt(c, events, n), SysAt(c, events, m);
    var k := Performs(c, events, n, m, turn, ahead, o);
    var j := Performs(c, events, n, m, turn, ahead, t);
    assert ViewOf(c, before, t).Owns(x) <==> t == o;
    if Puts(sys.maps, turn + ahead[t], x, t) {
      forall s | 0 <= s < |sys.nodes|
        ensures ViewOf(c, sys, s).Owns(x) <==> s == t
      {
        BothGive(c, events, n, m, turn, ahead, o, t, x, s);
      }
      ExchangeExactly(c, events, n, k, m, turn, o, t, x);
    }
  }

  // ----- The skipped announcement -----

  /** For an account that the skipped announcement moves, and the one after it does not name: those ahead leave it
      where it was. After the next round it has one owner that reads the truth if and only if it was to be moved
      between shards that are equally far ahead; otherwise it has two owners or none. */
  lemma SkippedMove(c: Config, events: seq<Event>, n: nat, m: nat, end: nat, k: nat, ahead: seq<nat>, x: Address)
    requires Into(c.home, c.shardNum) && x !in c.brokers && Afterwards(c, events, n, m, end, k, k + 1, ahead)
    requires k + 1 < |SysAt(c, events, end).maps| ==> x !in SysAt(c, events, end).maps[k + 1]
    ensures var maps := SysAt(c, events, end).maps;
            var from, to := Announces(c, maps, k, x), Announces(c, maps, k + 1, x);
            && from < |ahead| && to < |ahead|
            && (Right(c, events, end, x) <==> ahead[from] == ahead[to])
  {
    CourseSync(c, events, m);
    CourseSync(c, events, end);
    MapsGrow(c, events, m, end);
    WavePlaces(c, events, n, m, k, 0);
    var sys := SysAt(c, events, end);
    var from, to := Announces(c, sys.maps, k, x), Announces(c, sys.maps, k + 1, x);
    AnnouncesInRange(c, sys.maps, k, x);
    AnnouncesInRange(c, sys.maps, k + 1, x);
    PmPrefix(SysAt(c, events, m).maps, sys.maps, k);
    forall s | 0 <= s < |sys.nodes|
      ensures ViewOf(c, sys, s).Owns(x) <==> (if ahead[s] == 0 then to else from) == s
    {
      SkippedPlaces(c, events, n, m, end, k, ahead, x, s);
    }
    SplitOwner(c, sys, ahead, to, from, x);
    if ahead[from] == ahead[to] {
      WaveReads(c, events, n, m, k, x);
      var j := Performs(c, events, m, end, k, ahead, from);
      ExchangeExactly(c, events, m, j, end, k, from, if ahead[from] == 0 then to else from, x);
    }
  }

  lemma SkippedPlaces(c: Config, events: seq<Event>, n: nat, m: nat, end: nat, k: nat, ahead: seq<nat>, x: Address,
                      s: nat)
    requires Into(c.home, c.shardNum) && Afterwards(c, events, n, m, end, k, k + 1, ahead) && s < c.shardNum
    requires k + 1 < |SysAt(c, events, end).maps| ==> x !in SysAt(c, events, end).maps[k + 1]
    ensures var sys := SysAt(c, events, end);
            && |sys.nodes| == |ahead| == c.shardNum
            && OwnerOf(sys.nodes[s].pm, c.home, x) == Announces(c, sys.maps, if ahead[s] == 0 then k + 1 else k, x)
  {
    var j := Performs(c, events, m, end, k, ahead, s);
    WavePlaces(c, events, n, m, k, s);
    MapsGrow(c, events, m, end);
    PmPrefix(SysAt(c, events, m).maps, SysAt(c, events, end).maps, k);
    assert OnTracks(SysAt(c, events, m), ahead);
  }

  // ----- Accounts that are not moved any more -----

  predicate Leaves(m: PartitionMap, x: Address, p: nat) {
    x in m ==> m[x] == p
  }

  /** A shard that has gone through k rounds, or is about to, and has nothing in its record that takes the account from
      shard p. */
  ghost predicate Lands(c: Config, n: Node, k: nat, x: Address, p: nat) {
    && n.turn + 1 >= k && n.heard >= k
    && (n.turn >= k ==> OwnerOf(n.pm, c.home, x) == p)
    && (n.turn + 1 == k ==> n.HasSent() && OwnerOf(n.pm + Closing(n), c.home, x) == p)
    && forall j :: n.round <= j < |n.modified| ==> Leaves(n.modified[j], x, p)
  }

  lemma LandsCommitted(c: Config, n: Node, s: nat, k: nat, x: Address, p: nat)
    requires Lands(c, n, k, x, p) && RecordOk(n) && n.phase.Proposed?
    ensures Lands(c, Committed(c, n, s, n.phase.request), k, x, p)
  {
    assert Leaves(n.modified[n.round], x, p);
  }

  lemma LandsArrived(c: Config, n: Node, m: PartitionMap, k: nat, x: Address, p: nat)
    requires Lands(c, n, k, x, p) && RecordOk(n) && (n.phase != Normal ==> n.partitionOn) && Leaves(m, x, p)
    ensures Lands(c, Arrived(n, m), k, x, p)
  {
  }

  lemma LandsNext(c: Config, sys: System, step: Step, s: nat, k: nat, x: Address, p: nat)
    requires Sync(c, sys) && Enabled(c, sys, step) && s < |sys.nodes| && Lands(c, sys.nodes[s], k, x, p)
    requires step == Arrive(s) ==> Leaves(sys.maps[sys.nodes[s].heard], x, p)
    ensures |Next(c, sys, step).nodes| == |sys.nodes| && Lands(c, Next(c, sys, step).nodes[s], k, x, p)
  {
    Known(c, sys, s, s);
    if step == Arrive(s) {
      LandsArrived(c, sys.nodes[s], sys.maps[sys.nodes[s].heard], k, x, p);
    } else if step == Commit(s) {
      LandsCommitted(c, sys.nodes[s], s, k, x, p);
    } else if !step.Propose? {
      RecordUnmoved(c, sys, step, s);
    }
  }

  /** No announcement from number k on takes the account from shard p. */
  ghost predicate LeftFrom(maps: seq<PartitionMap>, k: nat, x: Address, p: nat) {
    forall j :: k <= j < |maps| ==> Leaves(maps[j], x, p)
  }

  lemma LandsThen(c: Config, a: Supervised, e: Event, maps: seq<PartitionMap>, s: nat, k: nat, x: Address, p: nat)
    requires Sync(c, a.sys) && s < |a.sys.nodes| && Lands(c, a.sys.nodes[s], k, x, p)
    requires LeftFrom(maps, k, x, p) && a.sys.maps <= maps
    ensures s < |Then(c, a, e).sys.nodes| && Lands(c, Then(c, a, e).sys.nodes[s], k, x, p)
  {
    if Possible(c, a, e) && e.Shards? {
      LeftEarlier(a.sys.maps, maps, k, x, p);
      LandsNext(c, a.sys, e.step, s, k, x, p);
    }
  }

  lemma {:induction false} LandsLater(c: Config, events: seq<Event>, n: nat, m: nat, maps: seq<PartitionMap>, k: nat,
                                      x: Address, p: nat, s: nat)
    requires n <= m <= |events| && s < |SysAt(c, events, n).nodes| && Lands(c, SysAt(c, events, n).nodes[s], k, x, p)
    requires SysAt(c, events, m).maps <= maps && LeftFrom(maps, k, x, p)
    ensures s < |SysAt(c, events, m).nodes| && Lands(c, SysAt(c, events, m).nodes[s], k, x, p)
  {
    if n < m {
      MapsGrow(c, events, m - 1, m);
      LandsLater(c, events, n, m - 1, maps, k, x, p, s);
      CourseSync(c, events, m - 1);
      LandsThen(c, Course(c, events, m - 1), events[m - 1], maps, s, k, x, p);
    }
  }

  lemma LeftEarlier(maps: seq<PartitionMap>, later: seq<PartitionMap>, k: nat, x: Address, p: nat)
    requires LeftFrom(later, k, x, p) && maps <= later
    ensures LeftFrom(maps, k, x, p)
  {
    forall j | k <= j < |maps|
      ensures Leaves(maps[j], x, p)
    {
      assert Leaves(later[j], x, p);
    }
  }

  lemma LandsAtFirst(c: Config, events: seq<Event>, n: nat, k: nat, x: Address, s: nat)
    requires Into(c.home, c.shardNum) && FirstAt(c, events, n, k) && s < c.shardNum
    requires LeftFrom(SysAt(c, events, n).maps, k, x, Announces(c, SysAt(c, events, n).maps, k, x))
    ensures s < |SysAt(c, events, n).nodes|
    ensures Lands(c, SysAt(c, events, n).nodes[s], k, x, Announces(c, SysAt(c, events, n).maps, k, x))
  {
    AtFirst(c, events, n, k, s);
    CourseSync(c, events, n);
    Known(c, SysAt(c, events, n), s, s);
    RegularLands(c, SysAt(c, events, n).maps, SysAt(c, events, n).nodes[s], k, x);
  }

  lemma RegularLands(c: Config, maps: seq<PartitionMap>, n: Node, k: nat, x: Address)
    requires |maps| == k + 1 && k > 0 && Regular(maps, n) && LeftFrom(maps, k, x, Announces(c, maps, k, x))
    requires n.phase != Normal ==> n.partitionOn
    requires (n.turn == k && !n.HasSent()) || (n.turn + 1 == k && n.HasSent() && n.pm + Closing(n) == PmAfter(maps, k))
    ensures Lands(c, n, k, x, Announces(c, maps, k, x))
  {
    assert Leaves(maps[k], x, Announces(c, maps, k, x));
    assert PmAfter(maps, k) == PmAfter(maps, k - 1) + maps[k - 1];
  }

  lemma LandsForwards(c: Config, n: Node, way: Way, k: nat, x: Address, p: nat, s: nat)
    requires Lands(c, n, k, x, p) && n.turn >= k && n.round < |n.modified| && !n.phase.Proposed?
    requires At(way, n.turn) == p && At(way, n.turn + 1) == p
    ensures Forwards(c, n, way, s, x)
  {
    assert Leaves(n.modified[n.round], x, p) && Closing(n) == n.modified[n.round];
    assert OwnerOf(n.pm + Closing(n), c.home, x) == p == At(way, n.turn) == At(way, n.turn + 1);
  }

  lemma {:induction false} LandsKeepTo(c: Config, events: seq<Event>, n: nat, m: nat, k: nat, x: Address, p: nat)
    requires Into(c.home, c.shardNum) && FirstAt(c, events, n, k) && n <= m <= |events|
    requires p == Announces(c, SysAt(c, events, n).maps, k, x) && LeftFrom(SysAt(c, events, m).maps, k, x, p)
    ensures AllKeepTo(c, events, n, m, Announced(c, SysAt(c, events, n).maps, x), x)
  {
    if n < m {
      MapsGrow(c, events, m - 1, m);
      LeftEarlier(SysAt(c, events, m - 1).maps, SysAt(c, events, m).maps, k, x, p);
      LandsKeepTo(c, events, n, m - 1, k, x, p);
      var a, e := Course(c, events, m - 1), events[m - 1];
      if Possible(c, a, e) && e.Shards? && e.step.Send? {
        LandsSend(c, events, n, m - 1, k, x, p, e.step.s);
      }
    }
  }

  lemma LandsSend(c: Config, events: seq<Event>, n: nat, j: nat, k: nat, x: Address, p: nat, s: nat)
    requires Into(c.home, c.shardNum) && FirstAt(c, events, n, k) && n <= j < |events|
    requires p == Announces(c, SysAt(c, events, n).maps, k, x) && LeftFrom(SysAt(c, events, j).maps, k, x, p)
    requires SendsAt(c, Course(c, events, j), events[j], s)
    ensures var was := SysAt(c, events, j).nodes[s];
            was.modified != [] && Forwards(c, was, Announced(c, SysAt(c, events, n).maps, x), s, x)
  {
    var maps, was := SysAt(c, events, n).maps, SysAt(c, events, j).nodes[s];
    CourseSync(c, events, j);
    MapsGrow(c, events, n, j);
    LeftEarlier(maps, SysAt(c, events, j).maps, k, x, p);
    LandsAtFirst(c, events, n, k, x, s);
    LandsLater(c, events, n, j, SysAt(c, events, j).maps, k, x, p, s);
    Known(c, SysAt(c, events, j), s, s);
    StaysThere(c, maps, k, x, was.turn);
    StaysThere(c, maps, k, x, was.turn + 1);
    LandsForwards(c, was, Announced(c, maps, x), k, x, p, s);
  }

  /** An account that no announcement from the first overtaking one on moves: whatever else is moved, and however many
      rounds are overtaken, it has its one owner outside rounds, which reads the truth. */
  lemma UnmovedReadsTruth(c: Config, events: seq<Event>, n: nat, m: nat, k: nat, x: Address, s: nat)
    requires Into(c.home, c.shardNum) && FirstAt(c, events, n, k) && n <= m <= |events| && x !in c.brokers
    requires s < c.shardNum
    requires LeftFrom(SysAt(c, events, m).maps, k, x, Announces(c, SysAt(c, events, n).maps, k, x))
    ensures var sys, p := SysAt(c, events, m), Announces(c, SysAt(c, events, n).maps, k, x);
            && |sys.nodes| == c.shardNum
            && (sys.nodes[s].phase == Normal ==>
                  (ViewOf(c, sys, s).Owns(x) <==> s == p)
                  && (s == p ==> Same(sys.nodes[s].state, sys.truth, x)))
  {
    var maps, sys := SysAt(c, events, n).maps, SysAt(c, events, m);
    var p, way := Announces(c, maps, k, x), Announced(c, maps, x);
    MapsGrow(c, events, n, m);
    LeftEarlier(maps, sys.maps, k, x, p);
    CalmOnWay(c, events, n, x);
    LandsKeepTo(c, events, n, m, k, x, p);
    StaysOnWay(c, events, n, m, way, x);
    CourseSync(c, events, m);
    LandsAtFirst(c, events, n, k, x, s);
    LandsLater(c, events, n, m, sys.maps, k, x, p, s);
    if sys.nodes[s].phase == Normal && ViewOf(c, sys, s).Owns(x) {
      NormalReads(c, sys, way, x, s, s);
    }
  }

  lemma LastLeaves(c: Config, maps: seq<PartitionMap>, k: nat, x: Address, turn: nat)
    requires |maps| == k + 1 && LeftFrom(maps, k, x, Announces(c, maps, k, x)) && turn >= k
    ensures Announces(c, maps, turn, x) == Announces(c, maps, k, x)
  {
    assert Leaves(maps[k], x, Announces(c, maps, k, x));
    assert PmAfter(maps, k + 1) == PmAfter(maps, k) + maps[k];
  }

  lemma StaysThere(c: Config, maps: seq<PartitionMap>, k: nat, x: Address, turn: nat)
    requires |maps| == k + 1 && LeftFrom(maps, k, x, Announces(c, maps, k, x)) && turn >= k
    ensures At(Announced(c, maps, x), turn) == Announces(c, maps, k, x)
  {
    AnnouncedAt(c, maps, x, turn);
    LastLeaves(c, maps, k, x, turn);
  }

  // ----- From any later round on -----

  lemma {:induction false} AnnouncesLeft(c: Config, maps: seq<PartitionMap>, k: nat, x: Address, p: nat, j: nat)
    requires LeftFrom(maps, k, x, p) && k <= j <= |maps| && Announces(c, maps, k, x) == p
    ensures Announces(c, maps, j, x) == p
  {
    if k < j {
      AnnouncesLeft(c, maps, k, x, p, j - 1);
      assert Leaves(maps[j - 1], x, p);
    }
  }

  /** At the beginning of any later round every shard still places an unmoved account on its one owner. */
  lemma UnmovedBegins(c: Config, events: seq<Event>, n: nat, m: nat, k: nat, turn: nat, x: Address, p: nat, s: nat)
    requires Into(c.home, c.shardNum) && FirstAt(c, events, n, k) && n <= m <= |events| && s < c.shardNum
    requires Begins(SysAt(c, events, m), turn) && p == Announces(c, SysAt(c, events, n).maps, k, x)
    requires LeftFrom(SysAt(c, events, m).maps, k, x, p)
    ensures |SysAt(c, events, m).nodes| == c.shardNum && turn >= k
    ensures OwnerOf(SysAt(c, events, m).nodes[s].pm, c.home, x) == p
    ensures k <= |SysAt(c, events, m).maps| && Announces(c, SysAt(c, events, m).maps, k, x) == p
  {
    var maps, sys := SysAt(c, events, n).maps, SysAt(c, events, m);
    CourseSync(c, events, m);
    MapsGrow(c, events, n, m);
    LeftEarlier(maps, sys.maps, k, x, p);
    LandsAtFirst(c, events, n, k, x, s);
    LandsLater(c, events, n, m, sys.maps, k, x, p, s);
    PmPrefix(maps, sys.maps, k);
    assert sys.nodes[s].turn == turn && !sys.nodes[s].HasSent();
  }

  lemma UnmovedReader(c: Config, events: seq<Event>, n: nat, m: nat, k: nat, turn: nat, x: Address, p: nat)
    requires Into(c.home, c.shardNum) && FirstAt(c, events, n, k) && n <= m <= |events| && x !in c.brokers
    requires Begins(SysAt(c, events, m), turn) && p == Announces(c, SysAt(c, events, n).maps, k, x)
    requires LeftFrom(SysAt(c, events, m).maps, k, x, p) && c.shardNum > 0
    ensures OneReader(c, SysAt(c, events, m), p, x)
  {
    var maps, sys := SysAt(c, events, n).maps, SysAt(c, events, m);
    CourseSync(c, events, n);
    CourseSync(c, events, m);
    CalmOnWay(c, events, n, x);
    LandsKeepTo(c, events, n, m, k, x, p);
    StaysOnWay(c, events, n, m, Announced(c, maps, x), x);
    AnnouncesInRange(c, maps, k, x);
    forall s | 0 <= s < |sys.nodes|
      ensures ViewOf(c, sys, s).Owns(x) <==> s == p
    {
      UnmovedBegins(c, events, n, m, k, turn, x, p, s);
    }
    BeginReads(c, sys, Announced(c, maps, x), turn, p, x);
  }

  /** The exact condition from the beginning of any later round on, whatever has overtaken before it, for an account
      that nothing has moved up to there. */
  lemma LaterExactly(c: Config, events: seq<Event>, n: nat, m: nat, end: nat, k: nat, turn: nat, last: nat,
                     ahead: seq<nat>, x: Address)
    requires Into(c.home, c.shardNum) && c.shardNum > 0 && x !in c.brokers && FirstAt(c, events, n, k)
    requires n <= m <= end <= |events| && Calmly(c, events, m, end) && turn <= last
    requires Begins(SysAt(c, events, m), turn) && Begins(SysAt(c, events, end), last)
    requires OnTracks(SysAt(c, events, m), ahead)
    requires LeftFrom(SysAt(c, events, m).maps, k, x, Announces(c, SysAt(c, events, n).maps, k, x))
    ensures AlwaysRight(c, events, m, end, x) <==> LevelTill(c, SysAt(c, events, end).maps, ahead, turn, last, x)
  {
    var sys, p := SysAt(c, events, m), Announces(c, SysAt(c, events, n).maps, k, x);
    CourseSync(c, events, m);
    CourseSync(c, events, end);
    forall s | 0 <= s < |ahead|
      ensures PlacesAt(c, sys.maps, sys.nodes[s], ahead[s], x)
    {
      UnmovedBegins(c, events, n, m, k, turn, x, p, s);
      assert OnTrack(sys.maps, sys.nodes[s], ahead[s]) && sys.nodes[s].turn == turn;
      AnnouncesLeft(c, sys.maps, k, x, p, turn + ahead[s]);
    }
    UnmovedReader(c, events, n, m, k, turn, x, p);
    ViewExactly(c, events, m, end, ahead, turn, last, p, x);
  }
}
