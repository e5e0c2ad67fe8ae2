/** What the AERO statistics (partition/partition_AERO.go) count, said of the undirected edges, and what a list of
    prefix moves does to the labels and to the returned map. */
module AeroSpec {
  import opened Addresses
  import opened Graphs
  import opened ClpaSpec
  import opened Multisets

  const PREFIX_LEN := 2
  const FAKE_ADDR: Address := "000000000000000000000000000000000000dead"

  // ----- Edge ends -----

  /** The edge ends at vertices of vs, and those of edges whose ends are in different shards. */
  function EndsAt(edges: seq<Edge>, vs: set<Vertex>): int {
    if edges == [] then 0
    else
      var e := edges[|edges| - 1];
      EndsAt(edges[..|edges| - 1], vs) + Bit(e.u in vs) + Bit(e.v in vs)
  }

  function CrossEndsAt(edges: seq<Edge>, pm: Labelling, vs: set<Vertex>): int {
    if edges == [] then 0
    else
      var e := edges[|edges| - 1];
      CrossEndsAt(edges[..|edges| - 1], pm, vs) + (if Crosses(e, pm) then Bit(e.u in vs) + Bit(e.v in vs) else 0)
  }

  /** Edge ends at vs whose other end is labelled k. */
  function EndsToward(edges: seq<Edge>, pm: Labelling, vs: set<Vertex>, k: int): int {
    CrossInto(edges, pm, vs, k) + InnerInto(edges, pm, vs, k)
  }

  lemma {:induction false} NoEnds(edges: seq<Edge>, pm: Labelling, vs: set<Vertex>)
    requires forall i :: 0 <= i < |edges| ==> edges[i].u !in vs && edges[i].v !in vs
    ensures EndsAt(edges, vs) == 0 && CrossEndsAt(edges, pm, vs) == 0
    ensures forall k :: EndsToward(edges, pm, vs, k) == 0
  {
    if edges != [] {
      NoEnds(edges[..|edges| - 1], pm, vs);
      forall k
        ensures EndsToward(edges, pm, vs, k) == EndsToward(edges[..|edges| - 1], pm, vs, k)
      {
      }
    }
  }

  /** The ends at one more vertex are its list entries. */
  lemma {:induction false} VisitEnds(edges: seq<Edge>, pm: Labelling, vs: set<Vertex>, vs': set<Vertex>, x: Vertex)
    requires x !in vs && forall y :: y in vs' <==> y in vs || y == x
    ensures EndsAt(edges, vs') == EndsAt(edges, vs) + |Neighbours(edges, x)|
    ensures CrossEndsAt(edges, pm, vs')
         == CrossEndsAt(edges, pm, vs) + |Neighbours(edges, x)| - CountLabel(Neighbours(edges, x), pm, LabelOf(pm, x))
  {
    if edges != [] {
      var rest, e := edges[..|edges| - 1], edges[|edges| - 1];
      VisitEnds(rest, pm, vs, vs', x);
      CountLabelLast(rest, e, pm, x, LabelOf(pm, x));
      NeighboursSnoc(rest, e, x);
      assert edges == rest + [e];
    }
  }

  lemma VisitToward(edges: seq<Edge>, pm: Labelling, vs: set<Vertex>, vs': set<Vertex>, x: Vertex, k: int)
    requires x !in vs && forall y :: y in vs' <==> y in vs || y == x
    ensures EndsToward(edges, pm, vs', k) == EndsToward(edges, pm, vs, k) + CountLabel(Neighbours(edges, x), pm, k)
  {
    VisitCross(edges, pm, vs, vs', x, k);
    VisitInner(edges, pm, vs, vs', x, k);
  }

  /** Disjoint sets of vertices. */
  lemma {:induction false} EndsOfUnion(edges: seq<Edge>, pm: Labelling, x: set<Vertex>, y: set<Vertex>,
                                       both: set<Vertex>)
    requires x !! y && forall v :: v in both <==> v in x || v in y
    ensures EndsAt(edges, both) == EndsAt(edges, x) + EndsAt(edges, y)
    ensures CrossEndsAt(edges, pm, both) == CrossEndsAt(edges, pm, x) + CrossEndsAt(edges, pm, y)
  {
    if edges != [] {
      EndsOfUnion(edges[..|edges| - 1], pm, x, y, both);
    }
  }

  /** There are two ends to an edge; a set of vertices has them all exactly when it misses no end. */
  lemma {:induction false} AllEnds(edges: seq<Edge>, pm: Labelling, vs: set<Vertex>)
    ensures EndsAt(edges, vs) <= 2 * |edges| && CrossEndsAt(edges, pm, vs) <= EndsAt(edges, vs)
    ensures CrossEndsAt(edges, pm, vs) >= 0
    ensures EndsAt(edges, vs) == 2 * |edges| <==> EndsIn(edges, vs)
    ensures EndsIn(edges, vs) ==> CrossEndsAt(edges, pm, vs) == 2 * CrossCount(edges, pm)
  {
    if edges != [] {
      var rest, e := edges[..|edges| - 1], edges[|edges| - 1];
      AllEnds(rest, pm, vs);
      assert edges == rest + [e];
      assert EndsIn(edges, vs) <==> EndsIn(rest, vs) && e.u in vs && e.v in vs;
    }
  }

  /** The ends at a set of vertices, by the label at the other end. */
  lemma {:induction false} TowardSum(edges: seq<Edge>, pm: Labelling, vs: set<Vertex>, s: seq<int>)
    requires InRange(edges, pm, |s|)
    requires forall k :: 0 <= k < |s| ==> s[k] == EndsToward(edges, pm, vs, k)
    ensures Plus(s) == EndsAt(edges, vs)
  {
    if edges == [] {
      PlusZeros(s, |s|);
    } else {
      var rest, e := edges[..|edges| - 1], edges[|edges| - 1];
      var before := seq(|s|, k => EndsToward(rest, pm, vs, k));
      TowardSum(rest, pm, vs, before);
      PlusBumped(before, s, |s|, LabelOf(pm, e.v), Bit(e.u in vs), LabelOf(pm, e.u), Bit(e.v in vs));
    }
  }

  // ----- Prefix groups -----

  predicate HasPrefix(a: Address, p: Address) {
    |a| >= |p| && a[..|p|] == p
  }

  predicate Long(v: Vertex) {
    |v.addr| >= PREFIX_LEN
  }

  function PrefixOf(v: Vertex): Address
    requires Long(v)
  {
    v.addr[..PREFIX_LEN]
  }

  /** The vertices whose two-character prefix is one of ps. */
  function Group(vs: set<Vertex>, ps: set<Address>): set<Vertex> {
    set v | v in vs && Long(v) && PrefixOf(v) in ps
  }

  function LongOnes(vs: set<Vertex>): set<Vertex> {
    set v | v in vs && Long(v)
  }

  predicate InGroup(v: Vertex, p: Address) {
    Long(v) && PrefixOf(v) == p
  }

  /** The label of the first vertex with the prefix, -1 if there is none. */
  function FirstLabel(order: seq<Vertex>, pm: Labelling, p: Address): int {
    if order == [] then -1
    else
      var before, v := FirstLabel(order[..|order| - 1], pm, p), order[|order| - 1];
      if before >= 0 then before else if InGroup(v, p) then LabelOf(pm, v) else -1
  }

  lemma {:induction false} FirstLabelIs(order: seq<Vertex>, pm: Labelling, p: Address)
    requires forall i :: 0 <= i < |order| ==> LabelOf(pm, order[i]) >= 0
    ensures if forall i :: 0 <= i < |order| ==> !InGroup(order[i], p) then FirstLabel(order, pm, p) == -1
            else exists i :: 0 <= i < |order| && InGroup(order[i], p)
                             && FirstLabel(order, pm, p) == LabelOf(pm, order[i])
                             && forall j :: 0 <= j < i ==> !InGroup(order[j], p)
  {
    if order != [] {
      var n := |order| - 1;
      FirstLabelIs(order[..n], pm, p);
      if forall i :: 0 <= i < n ==> !InGroup(order[..n][i], p) {
        assert forall i :: 0 <= i < n ==> !InGroup(order[i], p);
      } else {
        var i :| 0 <= i < n && InGroup(order[..n][i], p) && FirstLabel(order[..n], pm, p) == LabelOf(pm, order[..n][i])
                 && forall j :: 0 <= j < i ==> !InGroup(order[..n][j], p);
        assert forall j :: 0 <= j < i ==> order[..n][j] == order[j];
        assert InGroup(order[i], p) && FirstLabel(order, pm, p) == LabelOf(pm, order[i]);
      }
    }
  }

  /** The vertices whose prefix was first seen at a vertex labelled k. */
  function NamedGroup(vs: set<Vertex>, order: seq<Vertex>, pm: Labelling, k: int): set<Vertex> {
    set v | v in vs && Long(v) && FirstLabel(order, pm, PrefixOf(v)) == k
  }

  /** The statistics of one prefix. */
  datatype PrefixStat = PrefixStat(prefix: Address, currentShard: int, txVolume: int, cstxVolume: int,
                                   edgesToShard: seq<int>)

  /** They count the edge ends at the vertices of the group. */
  ghost predicate Describes(stat: PrefixStat, edges: seq<Edge>, pm: Labelling, group: set<Vertex>, shardNum: nat) {
    && 0 <= stat.currentShard < shardNum
    && stat.txVolume == EndsAt(edges, group)
    && stat.cstxVolume == CrossEndsAt(edges, pm, group)
    && |stat.edgesToShard| == shardNum
    && (forall k :: 0 <= k < shardNum ==> stat.edgesToShard[k] == EndsToward(edges, pm, group, k))
  }

  /** A prefix's edges to the shards add up to its volume. */
  lemma EdgesToShardSum(stat: PrefixStat, edges: seq<Edge>, pm: Labelling, group: set<Vertex>, shardNum: nat)
    requires Describes(stat, edges, pm, group, shardNum) && InRange(edges, pm, shardNum)
    ensures Plus(stat.edgesToShard) == stat.txVolume
  {
    TowardSum(edges, pm, group, stat.edgesToShard);
  }

  // ----- Moves -----

  datatype Migration = Migration(prefix: Address, toShard: int)

  /** The labels after all vertices with the prefix, of any length, are moved. */
  function Relabelled(pm: Labelling, vs: set<Vertex>, m: Migration): Labelling {
    map v | v in pm :: if v in vs && HasPrefix(v.addr, m.prefix) then m.toShard else pm[v]
  }

  function Labels(pm: Labelling, vs: set<Vertex>, migs: seq<Migration>, n: nat): Labelling
    requires n <= |migs|
  {
    if n == 0 then pm else Relabelled(Labels(pm, vs, migs, n - 1), vs, migs[n - 1])
  }

  function AddrsOf(vs: set<Vertex>): set<Address> {
    set v | v in vs :: v.addr
  }

  /** The accounts a move reports: those whose first two characters are the prefix. */
  function Reported(vs: set<Vertex>, m: Migration): map<Address, int> {
    map a | a in AddrsOf(vs) && |a| >= PREFIX_LEN && a[..PREFIX_LEN] == m.prefix :: m.toShard
  }

  lemma RecordedOneMore(res: map<Address, int>, vs: set<Vertex>, v: Vertex, m: Migration)
    ensures res + Reported(vs + {v}, m)
         == if Long(v) && PrefixOf(v) == m.prefix
             then (res + Reported(vs, m))[v.addr := m.toShard] else res + Reported(vs, m)
  {
  }

  function Results(vs: set<Vertex>, migs: seq<Migration>, n: nat): map<Address, int>
    requires n <= |migs|
  {
    if n == 0 then map[] else Results(vs, migs, n - 1) + Reported(vs, migs[n - 1])
  }

  /** Of the first n moves, the i-th is the last whose prefix the address begins with. */
  predicate LastFor(migs: seq<Migration>, n: nat, a: Address, i: int)
    requires n <= |migs|
  {
    0 <= i < n && migs[i].prefix <= a && forall j :: i < j < n ==> !(migs[j].prefix <= a)
  }

  /** Of the first n moves, the i-th is the last for the address's first two characters. */
  predicate LastNaming(migs: seq<Migration>, n: nat, a: Address, i: int)
    requires n <= |migs|
  {
    0 <= i < n && |a| >= 2 && migs[i].prefix == a[..2] && forall j :: i < j < n ==> migs[j].prefix != a[..2]
  }

  ghost predicate Touched(migs: seq<Migration>, n: nat, a: Address)
    requires n <= |migs|
  {
    exists i :: LastFor(migs, n, a, i)
  }

  ghost predicate Named(migs: seq<Migration>, n: nat, a: Address)
    requires n <= |migs|
  {
    exists i :: LastNaming(migs, n, a, i)
  }

  /** Each vertex has the target of the last move whose prefix its address begins with, and its old label if there is
      none; labels of other vertices stay. */
  ghost predicate LastMoveWins(was: Labelling, vs: set<Vertex>, migs: seq<Migration>, n: nat, now: Labelling)
    requires n <= |migs|
  {
    && now.Keys == was.Keys
    && (forall v, i :: v in was && v in vs && LastFor(migs, n, v.addr, i) ==> now[v] == migs[i].toShard)
    && (forall v :: v in was && !(v in vs && Touched(migs, n, v.addr)) ==> now[v] == was[v])
  }

  /** An account is reported if and only if it is a vertex's and some move's prefix is its first two characters, with
      the target of the last such move. */
  ghost predicate LastMoveReported(vs: set<Vertex>, migs: seq<Migration>, n: nat, res: map<Address, int>)
    requires n <= |migs|
  {
    && (forall a :: a in res <==> Vertex(a) in vs && Named(migs, n, a))
    && (forall a, i :: a in res && LastNaming(migs, n, a, i) ==> res[a] == migs[i].toShard)
  }

  /** One more move is the last for the addresses that begin with its prefix and changes nothing for the others. */
  lemma OneMoreFor(migs: seq<Migration>, n: nat, a: Address)
    requires 0 < n <= |migs|
    ensures migs[n - 1].prefix <= a ==> Touched(migs, n, a) && forall i :: LastFor(migs, n, a, i) <==> i == n - 1
    ensures !(migs[n - 1].prefix <= a) ==>
              && (Touched(migs, n, a) <==> Touched(migs, n - 1, a))
              && forall i :: LastFor(migs, n, a, i) <==> LastFor(migs, n - 1, a, i)
  {
    if migs[n - 1].prefix <= a {
      assert LastFor(migs, n, a, n - 1);
    } else {
      assert forall i :: LastFor(migs, n, a, i) <==> LastFor(migs, n - 1, a, i);
      if Touched(migs, n, a) {
        var i :| LastFor(migs, n, a, i);
        assert LastFor(migs, n - 1, a, i);
      }
      if Touched(migs, n - 1, a) {
        var i :| LastFor(migs, n - 1, a, i);
        assert LastFor(migs, n, a, i);
      }
    }
  }

  lemma OneMoreNaming(migs: seq<Migration>, n: nat, a: Address)
    requires 0 < n <= |migs|
    ensures |a| >= 2 && migs[n - 1].prefix == a[..2] ==>
              Named(migs, n, a) && forall i :: LastNaming(migs, n, a, i) <==> i == n - 1
    ensures !(|a| >= 2 && migs[n - 1].prefix == a[..2]) ==>
              && (Named(migs, n, a) <==> Named(migs, n - 1, a))
              && forall i :: LastNaming(migs, n, a, i) <==> LastNaming(migs, n - 1, a, i)
  {
    if |a| >= 2 && migs[n - 1].prefix == a[..2] {
      assert LastNaming(migs, n, a, n - 1);
    } else {
      assert forall i :: LastNaming(migs, n, a, i) <==> LastNaming(migs, n - 1, a, i);
      if Named(migs, n, a) {
        var i :| LastNaming(migs, n, a, i);
        assert LastNaming(migs, n - 1, a, i);
      }
      if Named(migs, n - 1, a) {
        var i :| LastNaming(migs, n - 1, a, i);
        assert LastNaming(migs, n, a, i);
      }
    }
  }

  lemma {:induction false} LabelsByLastMove(pm: Labelling, vs: set<Vertex>, migs: seq<Migration>, n: nat)
    requires n <= |migs|
    ensures LastMoveWins(pm, vs, migs, n, Labels(pm, vs, migs, n))
  {
    if n > 0 {
      LabelsByLastMove(pm, vs, migs, n - 1);
      OneMoreMoved(pm, vs, migs, n, Labels(pm, vs, migs, n - 1));
    }
  }

  lemma OneMoreMoved(was: Labelling, vs: set<Vertex>, migs: seq<Migration>, n: nat, pm: Labelling)
    requires 0 < n <= |migs| && LastMoveWins(was, vs, migs, n - 1, pm)
    ensures LastMoveWins(was, vs, migs, n, Relabelled(pm, vs, migs[n - 1]))
  {
    var now := Relabelled(pm, vs, migs[n - 1]);
    forall v, i | v in was && v in vs && LastFor(migs, n, v.addr, i)
      ensures now[v] == migs[i].toShard
    {
      OneMoreFor(migs, n, v.addr);
    }
    forall v | v in was && !(v in vs && Touched(migs, n, v.addr))
      ensures now[v] == was[v]
    {
      OneMoreFor(migs, n, v.addr);
    }
  }

  lemma ReportedIs(vs: set<Vertex>, m: Migration, a: Address)
    ensures a in Reported(vs, m) <==> Vertex(a) in vs && |a| >= 2 && m.prefix == a[..2]
    ensures a in Reported(vs, m) ==> Reported(vs, m)[a] == m.toShard
  {
    if Vertex(a) in vs {
      assert Vertex(a).addr in AddrsOf(vs);
    }
  }

  lemma {:induction false} ResultsByLastMove(vs: set<Vertex>, migs: seq<Migration>, n: nat)
    requires n <= |migs|
    ensures LastMoveReported(vs, migs, n, Results(vs, migs, n))
  {
    if n > 0 {
      ResultsByLastMove(vs, migs, n - 1);
      OneMoreReported(vs, migs, n, Results(vs, migs, n - 1));
    }
  }

  lemma OneMoreReported(vs: set<Vertex>, migs: seq<Migration>, n: nat, res: map<Address, int>)
    requires 0 < n <= |migs| && LastMoveReported(vs, migs, n - 1, res)
    ensures LastMoveReported(vs, migs, n, res + Reported(vs, migs[n - 1]))
  {
    var now := res + Reported(vs, migs[n - 1]);
    forall a
      ensures a in now <==> Vertex(a) in vs && Named(migs, n, a)
    {
      OneMoreNaming(migs, n, a);
      ReportedIs(vs, migs[n - 1], a);
    }
    forall a, i | a in now && LastNaming(migs, n, a, i)
      ensures now[a] == migs[i].toShard
    {
      OneMoreNaming(migs, n, a);
      ReportedIs(vs, migs[n - 1], a);
    }
  }

  /** When nothing is reported, an account nobody uses is. */
  function WithHeartbeat(res: map<Address, int>): map<Address, int> {
    if |res| == 0 then res[FAKE_ADDR := 0] else res
  }

  /** What is returned: the report of all moves or, if they report nothing, the heartbeat. */
  ghost predicate Returned(vs: set<Vertex>, migs: seq<Migration>, res: map<Address, int>) {
    if exists a :: Vertex(a) in vs && Named(migs, |migs|, a) then LastMoveReported(vs, migs, |migs|, res)
    else res == map["000000000000000000000000000000000000dead" := 0]
  }

  lemma WithHeartbeatReturned(vs: set<Vertex>, migs: seq<Migration>)
    ensures Returned(vs, migs, WithHeartbeat(Results(vs, migs, |migs|)))
  {
    var res := Results(vs, migs, |migs|);
    ResultsByLastMove(vs, migs, |migs|);
    if a :| Vertex(a) in vs && Named(migs, |migs|, a) {
      assert a in res;
    } else {
      assert res == map[];
    }
  }

  /** The returned map, laid over the old labels, gives the new label of the vertex. */
  predicate OverlayRight(was: Labelling, res: map<Address, int>, now: Labelling, v: Vertex) {
    LabelOf(now, v) == if v.addr in res then res[v.addr] else LabelOf(was, v)
  }

  ghost predicate OverlayAllRight(was: Labelling, res: map<Address, int>, now: Labelling, vs: set<Vertex>) {
    forall v :: v in vs ==> OverlayRight(was, res, now, v)
  }

  /** The move changes no label. */
  ghost predicate MovesNothing(pm: Labelling, vs: set<Vertex>, m: Migration) {
    forall v :: v in vs && HasPrefix(v.addr, m.prefix) ==> LabelOf(pm, v) == m.toShard
  }

  /** A move keeps the returned map right exactly when its prefix has two characters or it changes no label: what is
      moved and what is reported are chosen by different tests. */
  lemma OverlayStep(was: Labelling, res: map<Address, int>, pm: Labelling, vs: set<Vertex>, m: Migration)
    requires vs <= pm.Keys && OverlayAllRight(was, res, pm, vs)
    ensures OverlayAllRight(was, res + Reported(vs, m), Relabelled(pm, vs, m), vs)
            <==> |m.prefix| == PREFIX_LEN || MovesNothing(pm, vs, m)
  {
    forall v | v in vs
      ensures OverlayRight(was, res + Reported(vs, m), Relabelled(pm, vs, m), v)
              <==> |m.prefix| == PREFIX_LEN || !HasPrefix(v.addr, m.prefix) || LabelOf(pm, v) == m.toShard
    {
      assert OverlayRight(was, res, pm, v);
      assert v.addr in AddrsOf(vs);
    }
  }

  ghost predicate TwoCharacters(migs: seq<Migration>) {
    forall i :: 0 <= i < |migs| ==> |migs[i].prefix| == PREFIX_LEN
  }

  /** After any moves of two-character prefixes the returned map, laid over the old labels, is the new labels, and
      vertices outside the graph keep their labels. */
  lemma {:induction false} MovesOverlay(pm: Labelling, vs: set<Vertex>, migs: seq<Migration>, n: nat)
    requires vs <= pm.Keys && TwoCharacters(migs) && n <= |migs|
    ensures OverlayAllRight(pm, Results(vs, migs, n), Labels(pm, vs, migs, n), vs)
    ensures Labels(pm, vs, migs, n).Keys == pm.Keys
    ensures forall v :: v in pm && v !in vs ==> Labels(pm, vs, migs, n)[v] == pm[v]
  {
    if n > 0 {
      MovesOverlay(pm, vs, migs, n - 1);
      OverlayStep(pm, Results(vs, migs, n - 1), Labels(pm, vs, migs, n - 1), vs, migs[n - 1]);
    }
  }

  /** The heartbeat keeps the map right exactly when its account is not a vertex with another label. */
  lemma HeartbeatOverlay(pm: Labelling, vs: set<Vertex>)
    ensures OverlayAllRight(pm, WithHeartbeat(map[]), pm, vs)
        <==> (Vertex(FAKE_ADDR) in vs ==> LabelOf(pm, Vertex(FAKE_ADDR)) == 0)
  {
    forall v | v in vs
      ensures OverlayRight(pm, WithHeartbeat(map[]), pm, v) <==> (v.addr == FAKE_ADDR ==> LabelOf(pm, v) == 0)
    {
    }
    if Vertex(FAKE_ADDR) in vs && OverlayAllRight(pm, WithHeartbeat(map[]), pm, vs) {
      assert OverlayRight(pm, WithHeartbeat(map[]), pm, Vertex(FAKE_ADDR));
    }
  }

  /** When two-character moves report nothing they have changed nothing. */
  lemma NothingReported(pm: Labelling, vs: set<Vertex>, migs: seq<Migration>)
    requires vs <= pm.Keys && TwoCharacters(migs) && |Results(vs, migs, |migs|)| == 0
    ensures Labels(pm, vs, migs, |migs|) == pm
  {
    var after := Labels(pm, vs, migs, |migs|);
    MovesOverlay(pm, vs, migs, |migs|);
    assert Results(vs, migs, |migs|) == map[];
    forall v | v in pm
      ensures after[v] == pm[v]
    {
      if v in vs {
        assert OverlayRight(pm, Results(vs, migs, |migs|), after, v);
      }
    }
  }
}
