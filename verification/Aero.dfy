/** The AERO entry point of partition/partition_AERO.go: statistics by address prefix over the CLPA state, and the
    agent's prefix moves, which are an arbitrary list here. */
module Aeros {
  import opened Addresses
  import opened Graphs
  import opened ClpaSpec
  import opened Multisets
  import opened ClpaRuns
  import opened ClpaStates
  import opened AeroSpec

  /** What the agent is given. */
  datatype Payload = Payload(shardLoads: seq<int>, shardCstxRatios: seq<real>, globalCstxRatio: real,
                             candidates: map<Address, PrefixStat>)

  /** The statistics are those of the visited vertices. */
  ghost predicate Describe(cs: ClpaState, stats: map<Address, PrefixStat>, done: set<Vertex>)
    reads cs, cs.netGraph
  {
    && (forall p :: p in stats ==> |p| == PREFIX_LEN && stats[p].prefix == p
                                   && Describes(stats[p], cs.netGraph.edges, cs.partitionMap, Group(done, {p}),
                                                cs.shardNum))
    && (forall v :: v in done && Long(v) ==> PrefixOf(v) in stats)
  }

  /** A prefix is put on the shard of its first visited vertex. */
  ghost predicate FirstLabels(cs: ClpaState, stats: map<Address, PrefixStat>, order: seq<Vertex>)
    reads cs
  {
    forall p :: p in stats ==> stats[p].currentShard == FirstLabel(order, cs.partitionMap, p)
  }

  /** One adjacency list goes into the statistics of its vertex's prefix. */
  method TallyNeighbours(cs: ClpaState, v: Vertex, stat: PrefixStat) returns (now: PrefixStat)
    requires |stat.edgesToShard| == cs.shardNum
    requires forall i :: 0 <= i < |AdjacentIn(cs.netGraph.edgeSet, v)| ==>
               0 <= LabelOf(cs.partitionMap, AdjacentIn(cs.netGraph.edgeSet, v)[i]) < cs.shardNum
    ensures var lst := AdjacentIn(cs.netGraph.edgeSet, v);
            && now.prefix == stat.prefix && now.currentShard == stat.currentShard && |now.edgesToShard| == cs.shardNum
            && now.txVolume == stat.txVolume + |lst|
            && now.cstxVolume == stat.cstxVolume + |lst| - CountLabel(lst, cs.partitionMap, LabelOf(cs.partitionMap, v))
            && forall k :: 0 <= k < cs.shardNum ==>
                now.edgesToShard[k] == stat.edgesToShard[k] + CountLabel(lst, cs.partitionMap, k)
  {
    var lst := AdjacentIn(cs.netGraph.edgeSet, v);
    now := stat;
    for i := 0 to |lst|
      invariant now.prefix == stat.prefix && now.currentShard == stat.currentShard && |now.edgesToShard| == cs.shardNum
      invariant now.txVolume == stat.txVolume + i
      invariant now.cstxVolume == stat.cstxVolume
          + i - CountLabel(lst[..i], cs.partitionMap, LabelOf(cs.partitionMap, v))
      invariant forall k :: 0 <= k < cs.shardNum ==>
                  now.edgesToShard[k] == stat.edgesToShard[k] + CountLabel(lst[..i], cs.partitionMap, k)
    {
      assert lst[..i + 1][..i] == lst[..i];
      var neighborShard := LabelOf(cs.partitionMap, lst[i]);
      now := now.(txVolume := now.txVolume + 1,
                  edgesToShard := now.edgesToShard[neighborShard := now.edgesToShard[neighborShard] + 1]);
      if LabelOf(cs.partitionMap, v) != neighborShard {
        now := now.(cstxVolume := now.cstxVolume + 1);
      }
    }
    assert lst[..|lst|] == lst;
  }

  lemma NeighboursLabelled(cs: ClpaState, v: Vertex)
    requires cs.Valid()
    ensures AdjacentIn(cs.netGraph.edgeSet, v) == Neighbours(cs.netGraph.edges, v)
    ensures forall i :: 0 <= i < |AdjacentIn(cs.netGraph.edgeSet, v)| ==>
              0 <= LabelOf(cs.partitionMap, AdjacentIn(cs.netGraph.edgeSet, v)[i]) < cs.shardNum
  {
  }

  /** A prefix not seen before describes its empty group. */
  lemma EmptyGroup(cs: ClpaState, done: set<Vertex>, p: Address, now: int)
    requires cs.Valid() && 0 <= now < cs.shardNum && Group(done, {p}) == {}
    ensures Describes(PrefixStat(p, now, 0, 0, Zeros(cs.shardNum)), cs.netGraph.edges, cs.partitionMap,
                      Group(done, {p}), cs.shardNum)
  {
    NoEnds(cs.netGraph.edges, cs.partitionMap, {});
  }

  lemma TalliedDescribes(cs: ClpaState, done: set<Vertex>, v: Vertex, stat: PrefixStat, now: PrefixStat)
    requires cs.Valid() && v !in done && Long(v)
    requires Describes(stat, cs.netGraph.edges, cs.partitionMap, Group(done, {PrefixOf(v)}), cs.shardNum)
    requires var lst := Neighbours(cs.netGraph.edges, v);
             && now.currentShard == stat.currentShard && |now.edgesToShard| == cs.shardNum
             && now.txVolume == stat.txVolume + |lst|
             && now.cstxVolume == stat.cstxVolume
                 + |lst| - CountLabel(lst, cs.partitionMap, LabelOf(cs.partitionMap, v))
             && forall k :: 0 <= k < cs.shardNum ==>
                 now.edgesToShard[k] == stat.edgesToShard[k] + CountLabel(lst, cs.partitionMap, k)
    ensures Describes(now, cs.netGraph.edges, cs.partitionMap, Group(done + {v}, {PrefixOf(v)}), cs.shardNum)
  {
    var was, is_ := Group(done, {PrefixOf(v)}), Group(done + {v}, {PrefixOf(v)});
    VisitEnds(cs.netGraph.edges, cs.partitionMap, was, is_, v);
    forall k | 0 <= k < cs.shardNum
      ensures now.edgesToShard[k] == EndsToward(cs.netGraph.edges, cs.partitionMap, is_, k)
    {
      VisitToward(cs.netGraph.edges, cs.partitionMap, was, is_, v, k);
    }
  }

  /** The statistics of a prefix before its vertex v is visited. */
  function StatFor(cs: ClpaState, stats: map<Address, PrefixStat>, v: Vertex): PrefixStat
    requires cs.Valid() && Long(v) && v in cs.partitionMap
    reads cs, cs.netGraph
  {
    var p := PrefixOf(v);
    if p in stats then stats[p] else PrefixStat(p, cs.partitionMap[v], 0, 0, Zeros(cs.shardNum))
  }

  lemma StatForDescribes(cs: ClpaState, stats: map<Address, PrefixStat>, v: Vertex, done: set<Vertex>)
    requires cs.Valid() && Long(v) && v in cs.netGraph.vertexSet && v !in done && Describe(cs, stats, done)
    ensures Describes(StatFor(cs, stats, v), cs.netGraph.edges, cs.partitionMap, Group(done, {PrefixOf(v)}),
                      cs.shardNum)
    ensures StatFor(cs, stats, v).prefix == PrefixOf(v)
  {
    if PrefixOf(v) !in stats {
      EmptyGroup(cs, done, PrefixOf(v), cs.partitionMap[v]);
    }
  }

  /** The statistics after one more vertex. */
  lemma OneMoreVisited(cs: ClpaState, stats: map<Address, PrefixStat>, v: Vertex, done: set<Vertex>, now: PrefixStat)
    requires cs.Valid() && Long(v) && Describe(cs, stats, done) && now.prefix == PrefixOf(v)
    requires Describes(now, cs.netGraph.edges, cs.partitionMap, Group(done + {v}, {PrefixOf(v)}), cs.shardNum)
    ensures Describe(cs, stats[PrefixOf(v) := now], done + {v})
  {
    forall q | q in stats && q != PrefixOf(v)
      ensures Group(done + {v}, {q}) == Group(done, {q})
    {
    }
  }

  /** The statistics know the prefix of one more vertex, and no shard has changed. */
  ghost predicate LabelsKept(stats: map<Address, PrefixStat>, stats': map<Address, PrefixStat>, v: Vertex, shard: int) {
    && (forall q :: q in stats' <==> q in stats || InGroup(v, q))
    && (forall q :: q in stats' ==> stats'[q].currentShard == if q in stats then stats[q].currentShard else shard)
  }

  /** The statistics of a prefix with one more of its vertices. */
  method VisitVertex(cs: ClpaState, v: Vertex, stats: map<Address, PrefixStat>, ghost done: set<Vertex>)
    returns (now: PrefixStat)
    requires cs.Valid() && Long(v) && v in cs.netGraph.vertexSet && v !in done && Describe(cs, stats, done)
    ensures Describes(now, cs.netGraph.edges, cs.partitionMap, Group(done + {v}, {PrefixOf(v)}), cs.shardNum)
    ensures now.prefix == PrefixOf(v) && now.currentShard == StatFor(cs, stats, v).currentShard
  {
    var stat := StatFor(cs, stats, v);
    NeighboursLabelled(cs, v);
    StatForDescribes(cs, stats, v, done);
    now := TallyNeighbours(cs, v, stat);
    TalliedDescribes(cs, done, v, stat, now);
  }

  /** One entry of the adjacency map; addresses that are too short are left out. */
  method TallyVertex(cs: ClpaState, v: Vertex, stats: map<Address, PrefixStat>, ghost done: set<Vertex>)
    returns (stats': map<Address, PrefixStat>)
    requires cs.Valid() && v in cs.netGraph.vertexSet && v !in done && Describe(cs, stats, done)
    ensures Describe(cs, stats', done + {v}) && LabelsKept(stats, stats', v, LabelOf(cs.partitionMap, v))
  {
    if |v.addr| < PREFIX_LEN {
      assert forall p :: Group(done + {v}, {p}) == Group(done, {p});
      return stats;
    }
    var p := v.addr[..PREFIX_LEN];
    var now := VisitVertex(cs, v, stats, done);
    OneMoreVisited(cs, stats, v, done, now);
    stats' := stats[p := now];
  }

  /** One more visited vertex names its prefix's shard only if no vertex has before. */
  lemma NextLabel(cs: ClpaState, stats: map<Address, PrefixStat>, order: seq<Vertex>, v: Vertex, p: Address)
    requires cs.Valid() && (forall i :: 0 <= i < |order| ==> order[i] in cs.netGraph.vertexSet)
    requires Describe(cs, stats, SetOf(order)) && FirstLabels(cs, stats, order) && (p in stats || InGroup(v, p))
    ensures FirstLabel(order + [v], cs.partitionMap, p)
         == if p in stats then stats[p].currentShard else LabelOf(cs.partitionMap, v)
  {
    assert (order + [v])[..|order|] == order;
    FirstLabelIs(order, cs.partitionMap, p);
  }

  /** What is known after the first i vertices of the order. */
  ghost predicate Collected(cs: ClpaState, stats: map<Address, PrefixStat>, order: seq<Vertex>)
    reads cs, cs.netGraph
  {
    Describe(cs, stats, SetOf(order)) && FirstLabels(cs, stats, order)
  }

  lemma CollectedNext(cs: ClpaState, stats: map<Address, PrefixStat>, stats': map<Address, PrefixStat>,
                      order: seq<Vertex>, v: Vertex)
    requires cs.Valid() && forall i :: 0 <= i < |order| ==> order[i] in cs.netGraph.vertexSet
    requires Collected(cs, stats, order) && Describe(cs, stats', SetOf(order) + {v})
    requires LabelsKept(stats, stats', v, LabelOf(cs.partitionMap, v))
    ensures Collected(cs, stats', order + [v])
  {
    assert SetOf(order + [v]) == SetOf(order) + {v};
    forall p | p in stats'
      ensures stats'[p].currentShard == FirstLabel(order + [v], cs.partitionMap, p)
    {
      NextLabel(cs, stats, order, v, p);
    }
  }

  /** One more vertex of the order. */
  method VisitNext(cs: ClpaState, order: seq<Vertex>, i: nat, stats: map<Address, PrefixStat>)
    returns (stats': map<Address, PrefixStat>)
    requires cs.Valid() && i < |order| && IsOrderOf(order, cs.netGraph.edgeSet.Keys)
    requires Collected(cs, stats, order[..i])
    ensures Collected(cs, stats', order[..i + 1])
  {
    stats' := TallyVertex(cs, order[i], stats, SetOf(order[..i]));
    CollectedNext(cs, stats, stats', order[..i], order[i]);
    assert order[..i + 1] == order[..i] + [order[i]];
  }

  /** The adjacency map in the order in which it is ranged over. */
  method CollectStats(cs: ClpaState, order: seq<Vertex>) returns (stats: map<Address, PrefixStat>)
    requires cs.Valid() && IsOrderOf(order, cs.netGraph.edgeSet.Keys)
    ensures Describe(cs, stats, cs.netGraph.edgeSet.Keys) && FirstLabels(cs, stats, order)
  {
    stats := map[];
    NothingCollected(cs, order);
    for i := 0 to |order|
      invariant Collected(cs, stats, order[..i])
    {
      stats := VisitNext(cs, order, i, stats);
    }
    AllCollected(cs, stats, order);
  }

  lemma NothingCollected(cs: ClpaState, order: seq<Vertex>)
    ensures Collected(cs, map[], order[..0])
  {
    assert SetOf(order[..0]) == {};
  }

  lemma AllCollected(cs: ClpaState, stats: map<Address, PrefixStat>, order: seq<Vertex>)
    requires IsOrderOf(order, cs.netGraph.edgeSet.Keys) && Collected(cs, stats, order[..|order|])
    ensures Describe(cs, stats, cs.netGraph.edgeSet.Keys) && FirstLabels(cs, stats, order)
  {
    assert order[..|order|] == order;
    AllVisited(order, cs.netGraph.edgeSet.Keys);
  }

  /** The groups of different prefixes are disjoint and together hold every vertex with a long enough address. */
  lemma OneMoreGroup(cs: ClpaState, vs: set<Vertex>, ps: set<Address>, p: Address)
    requires p !in ps
    ensures EndsAt(cs.netGraph.edges, Group(vs, ps + {p}))
         == EndsAt(cs.netGraph.edges, Group(vs, ps)) + EndsAt(cs.netGraph.edges, Group(vs, {p}))
    ensures CrossEndsAt(cs.netGraph.edges, cs.partitionMap, Group(vs, ps + {p}))
         == CrossEndsAt(cs.netGraph.edges, cs.partitionMap, Group(vs, ps))
             + CrossEndsAt(cs.netGraph.edges, cs.partitionMap, Group(vs, {p}))
  {
    EndsOfUnion(cs.netGraph.edges, cs.partitionMap, Group(vs, ps), Group(vs, {p}), Group(vs, ps + {p}));
  }

  /** One entry grows. */
  method AddAt(s: seq<int>, i: nat, d: int) returns (t: seq<int>)
    requires i < |s|
    ensures |t| == |s| && Plus(t) == Plus(s) + d
    ensures forall k :: 0 <= k < |s| ==> t[k] == s[k] + if k == i then d else 0
  {
    t := s[i := s[i] + d];
    PlusBumped(s, t, |t|, i, d, |s|, 0);
  }

  /** One more prefix's volumes. */
  lemma OneMoreStat(cs: ClpaState, stats: map<Address, PrefixStat>, done: set<Address>, p: Address)
    requires Describe(cs, stats, cs.netGraph.edgeSet.Keys) && p in stats && p !in done
    ensures var edges, vs := cs.netGraph.edges, cs.netGraph.edgeSet.Keys;
            && EndsAt(edges, Group(vs, done + {p})) == EndsAt(edges, Group(vs, done)) + stats[p].txVolume
            && CrossEndsAt(edges, cs.partitionMap, Group(vs, done + {p}))
               == CrossEndsAt(edges, cs.partitionMap, Group(vs, done)) + stats[p].cstxVolume
  {
    OneMoreGroup(cs, cs.netGraph.edgeSet.Keys, done, p);
  }

  lemma NoStats(cs: ClpaState)
    ensures EndsAt(cs.netGraph.edges, Group(cs.netGraph.edgeSet.Keys, {})) == 0
    ensures CrossEndsAt(cs.netGraph.edges, cs.partitionMap, Group(cs.netGraph.edgeSet.Keys, {})) == 0
  {
    assert Group(cs.netGraph.edgeSet.Keys, {}) == {};
    NoEnds(cs.netGraph.edges, cs.partitionMap, {});
  }

  lemma AllStats(cs: ClpaState, stats: map<Address, PrefixStat>)
    requires Describe(cs, stats, cs.netGraph.edgeSet.Keys)
    ensures Group(cs.netGraph.edgeSet.Keys, stats.Keys) == LongOnes(cs.netGraph.edgeSet.Keys)
  {
  }

  /** The prefixes whose statistics name shard k. */
  function PrefixesAt(stats: map<Address, PrefixStat>, ps: set<Address>, k: int): set<Address> {
    set p | p in ps && p in stats && stats[p].currentShard == k
  }

  /** A shard's entry holds the volume of the prefixes among ps that name it. */
  ghost predicate LoadOf(cs: ClpaState, stats: map<Address, PrefixStat>, ps: set<Address>, k: int, tx: int, cstx: int)
    reads cs, cs.netGraph
  {
    var group := Group(cs.netGraph.edgeSet.Keys, PrefixesAt(stats, ps, k));
    tx == EndsAt(cs.netGraph.edges, group) && cstx == CrossEndsAt(cs.netGraph.edges, cs.partitionMap, group)
  }

  lemma OneMoreLoad(cs: ClpaState, stats: map<Address, PrefixStat>, done: set<Address>, p: Address, k: int, tx: int,
                    cstx: int)
    requires Describe(cs, stats, cs.netGraph.edgeSet.Keys) && p in stats && p !in done
    requires LoadOf(cs, stats, done, k, tx, cstx)
    ensures LoadOf(cs, stats, done + {p}, k, tx + (if k == stats[p].currentShard then stats[p].txVolume else 0),
                   cstx + (if k == stats[p].currentShard then stats[p].cstxVolume else 0))
  {
    if k == stats[p].currentShard {
      assert PrefixesAt(stats, done + {p}, k) == PrefixesAt(stats, done, k) + {p};
      OneMoreStat(cs, stats, PrefixesAt(stats, done, k), p);
    } else {
      assert PrefixesAt(stats, done + {p}, k) == PrefixesAt(stats, done, k);
    }
  }

  lemma NoLoads(cs: ClpaState, stats: map<Address, PrefixStat>)
    ensures forall k :: LoadOf(cs, stats, {}, k, 0, 0)
  {
    NoStats(cs);
    assert forall k :: PrefixesAt(stats, {}, k) == {};
  }

  ghost predicate LoadsOf(cs: ClpaState, stats: map<Address, PrefixStat>, ps: set<Address>, tx: seq<int>,
                          cstx: seq<int>)
    reads cs, cs.netGraph
  {
    |tx| == |cstx| == cs.shardNum && forall k :: 0 <= k < cs.shardNum ==> LoadOf(cs, stats, ps, k, tx[k], cstx[k])
  }

  method AddStat(cs: ClpaState, stats: map<Address, PrefixStat>, p: Address, tx: seq<int>, cstx: seq<int>,
                 ghost done: set<Address>)
    returns (tx': seq<int>, cstx': seq<int>)
    requires Describe(cs, stats, cs.netGraph.edgeSet.Keys) && p in stats && p !in done
    requires LoadsOf(cs, stats, done, tx, cstx)
    ensures LoadsOf(cs, stats, done + {p}, tx', cstx')
    ensures Plus(tx') == Plus(tx) + stats[p].txVolume
  {
    var stat := stats[p];
    tx' := AddAt(tx, stat.currentShard, stat.txVolume);
    cstx' := AddAt(cstx, stat.currentShard, stat.cstxVolume);
    forall k | 0 <= k < cs.shardNum
      ensures LoadOf(cs, stats, done + {p}, k, tx'[k], cstx'[k])
    {
      OneMoreLoad(cs, stats, done, p, k, tx[k], cstx[k]);
    }
  }

  /** The volumes of all prefixes, in any order, added up at the prefixes' shards. */
  method AddUpShards(cs: ClpaState, stats: map<Address, PrefixStat>)
    returns (shardTotalTx: seq<int>, shardCSTx: seq<int>)
    requires Describe(cs, stats, cs.netGraph.edgeSet.Keys)
    ensures LoadsOf(cs, stats, stats.Keys, shardTotalTx, shardCSTx)
    ensures Plus(shardTotalTx) == EndsAt(cs.netGraph.edges, LongOnes(cs.netGraph.edgeSet.Keys))
  {
    ghost var vs := cs.netGraph.edgeSet.Keys;
    shardTotalTx, shardCSTx := Zeros(cs.shardNum), Zeros(cs.shardNum);
    var todo := stats.Keys;
    ghost var done: set<Address> := {};
    NoStats(cs);
    NoLoads(cs, stats);
    PlusZeros(Zeros(cs.shardNum), |Zeros(cs.shardNum)|);
    while todo != {}
      invariant todo <= stats.Keys && done == stats.Keys - todo
      invariant LoadsOf(cs, stats, done, shardTotalTx, shardCSTx)
      invariant Plus(shardTotalTx) == EndsAt(cs.netGraph.edges, Group(vs, done))
      decreases |todo|
    {
      var p :| p in todo;
      todo := todo - {p};
      OneMoreStat(cs, stats, done, p);
      shardTotalTx, shardCSTx := AddStat(cs, stats, p, shardTotalTx, shardCSTx, done);
      done := done + {p};
    }
    assert done == stats.Keys;
    AllStats(cs, stats);
  }

  /** The volumes of all prefixes, in any order, added up. */
  method AddUpAll(cs: ClpaState, stats: map<Address, PrefixStat>) returns (totalTX: int, totalCSTX: int)
    requires Describe(cs, stats, cs.netGraph.edgeSet.Keys)
    ensures totalTX == EndsAt(cs.netGraph.edges, LongOnes(cs.netGraph.edgeSet.Keys))
    ensures totalCSTX == CrossEndsAt(cs.netGraph.edges, cs.partitionMap, LongOnes(cs.netGraph.edgeSet.Keys))
  {
    ghost var vs := cs.netGraph.edgeSet.Keys;
    totalTX, totalCSTX := 0, 0;
    var todo := stats.Keys;
    ghost var done: set<Address> := {};
    NoStats(cs);
    while todo != {}
      invariant todo <= stats.Keys && done == stats.Keys - todo
      invariant totalTX == EndsAt(cs.netGraph.edges, Group(vs, done))
      invariant totalCSTX == CrossEndsAt(cs.netGraph.edges, cs.partitionMap, Group(vs, done))
      decreases |todo|
    {
      var p :| p in todo;
      todo := todo - {p};
      OneMoreStat(cs, stats, done, p);
      totalTX, totalCSTX := totalTX + stats[p].txVolume, totalCSTX + stats[p].cstxVolume;
      done := done + {p};
    }
    assert done == stats.Keys;
    AllStats(cs, stats);
  }

  /** Every vertex that ends an edge has a list. */
  lemma EndsHaveLists(cs: ClpaState, i: nat)
    requires cs.Valid() && i < |cs.netGraph.edges|
    ensures cs.netGraph.edges[i].u in cs.netGraph.edgeSet && cs.netGraph.edges[i].v in cs.netGraph.edgeSet
  {
    ListedAtBothEnds(cs.netGraph.edges, i);
    assert AdjacentIn(cs.netGraph.edgeSet, cs.netGraph.edges[i].u) != [];
    assert AdjacentIn(cs.netGraph.edgeSet, cs.netGraph.edges[i].v) != [];
  }

  /** No edge ends at an address that is too short. */
  ghost predicate AllLong(edges: seq<Edge>) {
    forall i :: 0 <= i < |edges| ==> Long(edges[i].u) && Long(edges[i].v)
  }

  lemma LongMissesNothing(cs: ClpaState)
    requires cs.Valid()
    ensures EndsIn(cs.netGraph.edges, LongOnes(cs.netGraph.edgeSet.Keys)) <==> AllLong(cs.netGraph.edges)
  {
    forall i | 0 <= i < |cs.netGraph.edges|
      ensures cs.netGraph.edges[i].u in cs.netGraph.edgeSet && cs.netGraph.edges[i].v in cs.netGraph.edgeSet
    {
      EndsHaveLists(cs, i);
    }
  }

  function Ratio(part: int, whole: int): (r: real)
    ensures whole > 0 ==> r * whole as real == part as real
  {
    if whole > 0 then part as real / whole as real else 0.0
  }

  /** r is the share of cross-shard edges. */
  ghost predicate IsShare(r: real, edges: seq<Edge>, pm: Labelling) {
    r * |edges| as real == CrossCount(edges, pm) as real
  }

  /** If no address is too short, the global ratio is the share of cross-shard edges. */
  lemma RatioIsShare(edges: seq<Edge>, pm: Labelling, vs: set<Vertex>)
    requires EndsIn(edges, vs)
    ensures IsShare(Ratio(CrossEndsAt(edges, pm, vs), EndsAt(edges, vs)), edges, pm)
  {
    AllEnds(edges, pm, vs);
    if edges == [] {
      assert CrossCount(edges, pm) == 0;
    } else {
      RatioOfDoubles(CrossCount(edges, pm), |edges|);
    }
  }

  lemma RatioOfDoubles(m: int, n: int)
    requires n > 0
    ensures Ratio(2 * m, 2 * n) * n as real == m as real
  {
    var r := Ratio(2 * m, 2 * n);
    assert (2 * n) as real == 2.0 * n as real && (2 * m) as real == 2.0 * m as real;
    assert r * (2.0 * n as real) == 2.0 * (r * n as real);
  }

  lemma LoadsTotal(cs: ClpaState, totalTX: int, totalCSTX: int, r: real)
    requires cs.Valid() && r == Ratio(totalCSTX, totalTX)
    requires totalTX == EndsAt(cs.netGraph.edges, LongOnes(cs.netGraph.edgeSet.Keys))
    requires totalCSTX == CrossEndsAt(cs.netGraph.edges, cs.partitionMap, LongOnes(cs.netGraph.edgeSet.Keys))
    ensures totalTX == 2 * |cs.netGraph.edges| <==> AllLong(cs.netGraph.edges)
    ensures AllLong(cs.netGraph.edges) ==> IsShare(r, cs.netGraph.edges, cs.partitionMap)
  {
    AllEnds(cs.netGraph.edges, cs.partitionMap, LongOnes(cs.netGraph.edgeSet.Keys));
    LongMissesNothing(cs);
    if AllLong(cs.netGraph.edges) {
      RatioIsShare(cs.netGraph.edges, cs.partitionMap, LongOnes(cs.netGraph.edgeSet.Keys));
    }
  }

  method Ratios(shardCSTx: seq<int>, shardTotalTx: seq<int>) returns (ratios: seq<real>)
    requires |shardCSTx| == |shardTotalTx|
    ensures |ratios| == |shardTotalTx|
    ensures forall i :: 0 <= i < |ratios| ==> ratios[i] == Ratio(shardCSTx[i], shardTotalTx[i])
  {
    ratios := [];
    for i := 0 to |shardTotalTx|
      invariant |ratios| == i && forall j :: 0 <= j < i ==> ratios[j] == Ratio(shardCSTx[j], shardTotalTx[j])
    {
      ratios := ratios + [if shardTotalTx[i] > 0 then shardCSTx[i] as real / shardTotalTx[i] as real else 0.0];
    }
  }

  /** Each shard's load and cross-shard ratio are those of the vertices whose prefix it was given. */
  ghost predicate ShardsTold(cs: ClpaState, order: seq<Vertex>, loads: seq<int>, ratios: seq<real>)
    reads cs, cs.netGraph
  {
    && |loads| == |ratios| == cs.shardNum
    && forall k :: 0 <= k < cs.shardNum ==>
         var group := NamedGroup(cs.netGraph.edgeSet.Keys, order, cs.partitionMap, k);
         && loads[k] == EndsAt(cs.netGraph.edges, group)
         && ratios[k] == Ratio(CrossEndsAt(cs.netGraph.edges, cs.partitionMap, group), EndsAt(cs.netGraph.edges, group))
  }

  lemma NamedGroups(cs: ClpaState, stats: map<Address, PrefixStat>, order: seq<Vertex>, k: int)
    requires Describe(cs, stats, cs.netGraph.edgeSet.Keys) && FirstLabels(cs, stats, order)
    ensures Group(cs.netGraph.edgeSet.Keys, PrefixesAt(stats, stats.Keys, k))
         == NamedGroup(cs.netGraph.edgeSet.Keys, order, cs.partitionMap, k)
  {
  }

  lemma LoadsAreTold(cs: ClpaState, stats: map<Address, PrefixStat>, order: seq<Vertex>, tx: seq<int>, cstx: seq<int>,
                     ratios: seq<real>)
    requires Describe(cs, stats, cs.netGraph.edgeSet.Keys) && FirstLabels(cs, stats, order)
    requires LoadsOf(cs, stats, stats.Keys, tx, cstx) && |ratios| == |tx|
    requires forall k :: 0 <= k < |tx| ==> ratios[k] == Ratio(cstx[k], tx[k])
    ensures ShardsTold(cs, order, tx, ratios)
  {
    forall k | 0 <= k < cs.shardNum
      ensures LoadOf(cs, stats, stats.Keys, k, tx[k], cstx[k])
      ensures Group(cs.netGraph.edgeSet.Keys, PrefixesAt(stats, stats.Keys, k))
           == NamedGroup(cs.netGraph.edgeSet.Keys, order, cs.partitionMap, k)
    {
      NamedGroups(cs, stats, order, k);
    }
  }

  /** The loads add up to the edge ends at long enough addresses, which is twice the number of edges exactly when no
      address is too short; the global ratio is the share of cross-shard ends among them, and in that case the share of
      cross-shard edges. */
  ghost predicate GlobalTold(cs: ClpaState, payload: Payload)
    reads cs, cs.netGraph
  {
    var edges, long := cs.netGraph.edges, LongOnes(cs.netGraph.edgeSet.Keys);
    && Plus(payload.shardLoads) == EndsAt(edges, long)
    && (Plus(payload.shardLoads) == 2 * |edges| <==> AllLong(edges))
    && payload.globalCstxRatio == Ratio(CrossEndsAt(edges, cs.partitionMap, long), EndsAt(edges, long))
    && (AllLong(edges) ==> IsShare(payload.globalCstxRatio, edges, cs.partitionMap))
  }

  /** What the agent is told: the load and the cross-shard ratio of each shard, by the prefixes it was given; the loads
      add up to the edge ends at long enough addresses, which is twice the number of edges exactly when no address is
      too short; the global ratio is then the share of cross-shard edges; and the candidates are the prefixes with a
      cross-shard end, with their statistics. */
  method CollectState(cs: ClpaState, order: seq<Vertex>) returns (payload: Payload)
    requires cs.Valid() && IsOrderOf(order, cs.netGraph.edgeSet.Keys)
    ensures ShardsTold(cs, order, payload.shardLoads, payload.shardCstxRatios)
    ensures GlobalTold(cs, payload)
    ensures CandidatesOf(cs, order, payload.candidates)
  {
    var stats := CollectStats(cs, order);
    var shardTotalTx, shardCSTx := AddUpShards(cs, stats);
    var ratios := Ratios(shardCSTx, shardTotalTx);
    LoadsAreTold(cs, stats, order, shardTotalTx, shardCSTx, ratios);
    var totalTX, totalCSTX := AddUpAll(cs, stats);
    var currentRatio := Ratio(totalCSTX, totalTX);
    LoadsTotal(cs, totalTX, totalCSTX, currentRatio);
    var candidates := Candidates(cs, order, stats);
    payload := Payload(shardTotalTx, ratios, currentRatio, candidates);
  }

  /** The prefixes with a cross-shard end, with their statistics. */
  ghost predicate CandidatesOf(cs: ClpaState, order: seq<Vertex>, candidates: map<Address, PrefixStat>)
    reads cs, cs.netGraph
  {
    && FirstLabels(cs, candidates, order)
    && forall p ::
         && (p in candidates <==> |p| == PREFIX_LEN && CrossEndsOf(cs, p) > 0)
         && (p in candidates ==> DescribesPrefix(cs, candidates[p], p))
  }

  /** The cross-shard edge ends at the vertices with a prefix. */
  ghost function CrossEndsOf(cs: ClpaState, p: Address): int
    reads cs, cs.netGraph
  {
    CrossEndsAt(cs.netGraph.edges, cs.partitionMap, Group(cs.netGraph.edgeSet.Keys, {p}))
  }

  ghost predicate DescribesPrefix(cs: ClpaState, stat: PrefixStat, p: Address)
    reads cs, cs.netGraph
  {
    Describes(stat, cs.netGraph.edges, cs.partitionMap, Group(cs.netGraph.edgeSet.Keys, {p}), cs.shardNum)
  }

  method Candidates(cs: ClpaState, order: seq<Vertex>, stats: map<Address, PrefixStat>)
    returns (candidates: map<Address, PrefixStat>)
    requires cs.Valid() && Describe(cs, stats, cs.netGraph.edgeSet.Keys) && FirstLabels(cs, stats, order)
    ensures CandidatesOf(cs, order, candidates)
  {
    candidates := map p | p in stats && stats[p].cstxVolume > 0 :: stats[p];
    CandidatesExactly(cs, stats);
  }

  /** A group with a cross-shard end has a vertex, and so its prefix has been seen. */
  lemma CandidatesExactly(cs: ClpaState, stats: map<Address, PrefixStat>)
    requires cs.Valid() && Describe(cs, stats, cs.netGraph.edgeSet.Keys)
    ensures forall p :: CrossEndsOf(cs, p) > 0 ==> p in stats
  {
    forall p | p !in stats
      ensures CrossEndsOf(cs, p) == 0
    {
      assert Group(cs.netGraph.edgeSet.Keys, {p}) == {};
      NoEnds(cs.netGraph.edges, cs.partitionMap, {});
    }
  }

  // ----- Moves -----

  /** All vertices with the prefix, in any order, get the new label, and the vertex counts follow. */
  method UpdatePrefixShard(cs: ClpaState, m: Migration)
    requires cs.Valid() && cs.VertexCountsExact() && 0 <= m.toShard < cs.shardNum
    modifies cs`partitionMap, cs`vertexsNumInShard
    ensures cs.Valid() && cs.VertexCountsExact()
    ensures cs.partitionMap == Relabelled(old(cs.partitionMap), cs.netGraph.vertexSet, m)
  {
    var vs := cs.netGraph.vertexSet;
    var todo := vs;
    while todo != {}
      invariant cs.Valid() && cs.VertexCountsExact() && cs.netGraph.vertexSet == vs && todo <= vs
      invariant cs.partitionMap == Relabelled(old(cs.partitionMap), vs - todo, m)
      decreases |todo|
    {
      var v :| v in todo;
      todo := todo - {v};
      if HasPrefix(v.addr, m.prefix) {
        var oldShard := cs.partitionMap[v];
        if oldShard == m.toShard {
          continue;
        }
        Relabel(cs, v, oldShard, m.toShard);
      }
    }
    assert vs - todo == vs;
  }

  method Relabel(cs: ClpaState, v: Vertex, oldShard: int, newShard: int)
    requires cs.Valid() && cs.VertexCountsExact() && v in cs.netGraph.vertexSet
    requires oldShard == cs.partitionMap[v] && 0 <= newShard < cs.shardNum && newShard != oldShard
    modifies cs`partitionMap, cs`vertexsNumInShard
    ensures cs.Valid() && cs.VertexCountsExact() && cs.partitionMap == old(cs.partitionMap)[v := newShard]
  {
    ghost var before := cs.partitionMap;
    cs.partitionMap := cs.partitionMap[v := newShard];
    cs.vertexsNumInShard := cs.vertexsNumInShard[oldShard := cs.vertexsNumInShard[oldShard] - 1];
    cs.vertexsNumInShard := cs.vertexsNumInShard[newShard := cs.vertexsNumInShard[newShard] + 1];
    forall k {
      MembersRelabelled(cs.netGraph.vertexSet, before, cs.partitionMap, v, oldShard, newShard, k);
    }
  }

  /** The accounts of a move go into the result, in any order. */
  method RecordMove(cs: ClpaState, m: Migration, res: map<Address, int>) returns (res': map<Address, int>)
    ensures res' == res + Reported(cs.netGraph.vertexSet, m)
  {
    var todo := cs.netGraph.vertexSet;
    ghost var done: set<Vertex> := {};
    res' := res;
    while todo != {}
      invariant todo <= cs.netGraph.vertexSet && done == cs.netGraph.vertexSet - todo
      invariant res' == res + Reported(done, m)
      decreases |todo|
    {
      var v :| v in todo;
      todo := todo - {v};
      RecordedOneMore(res, done, v, m);
      if Long(v) && PrefixOf(v) == m.prefix {
        res' := res'[v.addr := m.toShard];
      }
      done := done + {v};
    }
    assert done == cs.netGraph.vertexSet;
  }

  /** The agent's moves, one after the other. */
  method ApplyMigrations(cs: ClpaState, migrations: seq<Migration>) returns (res: map<Address, int>)
    requires cs.Valid() && cs.VertexCountsExact()
    requires forall i :: 0 <= i < |migrations| ==> 0 <= migrations[i].toShard < cs.shardNum
    modifies cs`partitionMap, cs`vertexsNumInShard
    ensures cs.Valid() && cs.VertexCountsExact()
    ensures cs.partitionMap == Labels(old(cs.partitionMap), cs.netGraph.vertexSet, migrations, |migrations|)
    ensures res == Results(cs.netGraph.vertexSet, migrations, |migrations|)
    ensures LastMoveWins(old(cs.partitionMap), cs.netGraph.vertexSet, migrations, |migrations|, cs.partitionMap)
    ensures LastMoveReported(cs.netGraph.vertexSet, migrations, |migrations|, res)
  {
    LabelsByLastMove(cs.partitionMap, cs.netGraph.vertexSet, migrations, |migrations|);
    ResultsByLastMove(cs.netGraph.vertexSet, migrations, |migrations|);
    res := map[];
    for i := 0 to |migrations|
      invariant cs.Valid() && cs.VertexCountsExact()
      invariant cs.partitionMap == Labels(old(cs.partitionMap), cs.netGraph.vertexSet, migrations, i)
      invariant res == Results(cs.netGraph.vertexSet, migrations, i)
    {
      UpdatePrefixShard(cs, migrations[i]);
      res := RecordMove(cs, migrations[i], res);
    }
  }

  /** The whole entry point, for any in-range moves: the labels and the returned map are those specified, and all
      counters are exact at the end. */
  method AeroPartition(cs: ClpaState, order: seq<Vertex>, migrations: seq<Migration>)
    returns (payload: Payload, res: map<Address, int>)
    requires cs.Valid() && cs.VertexCountsExact() && IsOrderOf(order, cs.netGraph.edgeSet.Keys)
    requires forall i :: 0 <= i < |migrations| ==> 0 <= migrations[i].toShard < cs.shardNum
    modifies cs`partitionMap, cs`vertexsNumInShard, cs`edges2Shard, cs`minEdges2Shard, cs`crossShardEdgeNum
    ensures old(ShardsTold(cs, order, payload.shardLoads, payload.shardCstxRatios))
    ensures old(CandidatesOf(cs, order, payload.candidates))
    ensures old(GlobalTold(cs, payload))
    ensures cs.Valid() && cs.VertexCountsExact() && cs.CountersFor(cs.partitionMap)
    ensures IsMinimum(cs.minEdges2Shard, cs.edges2Shard)
    ensures cs.partitionMap == Labels(old(cs.partitionMap), cs.netGraph.vertexSet, migrations, |migrations|)
    ensures res == WithHeartbeat(Results(cs.netGraph.vertexSet, migrations, |migrations|))
    ensures LastMoveWins(old(cs.partitionMap), cs.netGraph.vertexSet, migrations, |migrations|, cs.partitionMap)
    ensures Returned(cs.netGraph.vertexSet, migrations, res)
  {
    WithHeartbeatReturned(cs.netGraph.vertexSet, migrations);
    cs.ComputeEdges2Shard();
    payload := CollectState(cs, order);
    res := ApplyMigrations(cs, migrations);
    if |res| == 0 {
      res := res[FAKE_ADDR := 0];
    }
    cs.ComputeEdges2Shard();
  }

  /** What is returned, laid over the old labels, is the new labels of all vertices, for any list of moves of
      two-character prefixes; if nothing is reported, exactly when the heartbeat's account is no vertex with
      another label. */
  lemma ReturnedMapRight(pm: Labelling, vs: set<Vertex>, migs: seq<Migration>)
    requires vs <= pm.Keys && TwoCharacters(migs)
    ensures OverlayAllRight(pm, WithHeartbeat(Results(vs, migs, |migs|)), Labels(pm, vs, migs, |migs|), vs)
            <==> (|Results(vs, migs, |migs|)| == 0 && Vertex(FAKE_ADDR) in vs ==> LabelOf(pm, Vertex(FAKE_ADDR)) == 0)
  {
    MovesOverlay(pm, vs, migs, |migs|);
    if |Results(vs, migs, |migs|)| == 0 {
      NothingReported(pm, vs, migs);
      HeartbeatOverlay(pm, vs);
      assert Results(vs, migs, |migs|) == map[];
    }
  }
}
