/** The CLPA partition state of partition/partition_CLPA.go: labels, cached counters and the relabelling loop. */
module ClpaStates {
  import opened Addresses
  import opened Graphs
  import opened ClpaSpec
  import opened Multisets
  import opened ClpaRuns

  const MAX_INT := 0x7fff_ffff_ffff_ffff

  /** m is the smallest entry, or the largest machine integer when no entry is below it. */
  ghost predicate IsMinimum(m: int, s: seq<int>) {
    && m <= MAX_INT
    && (forall i :: 0 <= i < |s| ==> m <= s[i])
    && (m == MAX_INT || m in s)
  }

  class ClpaState {
    const netGraph: Graph
    const home: Placement
    const shardNum: nat
    const maxIterations: int
    var partitionMap: Labelling
    var edges2Shard: seq<int>
    var vertexsNumInShard: seq<int>
    var minEdges2Shard: int
    var crossShardEdgeNum: int

    /** The graph is well formed and every vertex has a label that names a shard. */
    ghost predicate Valid()
      reads this, netGraph
    {
      && netGraph.Valid()
      && Into(home, shardNum)
      && netGraph.vertexSet <= partitionMap.Keys
      && (forall v :: v in partitionMap ==> 0 <= partitionMap[v] < shardNum)
      && |vertexsNumInShard| == shardNum
    }

    /** The cached counters are what they count, for this labelling. */
    ghost predicate CountersFor(pm: Labelling)
      reads this, netGraph
    {
      && |edges2Shard| == shardNum
      && (forall k :: 0 <= k < shardNum ==> edges2Shard[k] == TouchCount(netGraph.edges, pm, k))
      && crossShardEdgeNum == CrossCount(netGraph.edges, pm)
    }

    ghost predicate NoSelfLoops()
      reads netGraph
    {
      forall i :: 0 <= i < |netGraph.edges| ==> netGraph.edges[i].u != netGraph.edges[i].v
    }

    /** In a graph without self-loops the cache agrees with what it caches. */
    ghost predicate CacheExact()
      reads this, netGraph
    {
      && (NoSelfLoops() ==> CountersFor(partitionMap))
      && IsMinimum(minEdges2Shard, edges2Shard)
    }

    ghost predicate VertexCountsExact()
      reads this, netGraph
    {
      && |vertexsNumInShard| == shardNum
      && forall k :: 0 <= k < shardNum ==> vertexsNumInShard[k] == |Members(netGraph.vertexSet, partitionMap, k)|
    }

    /** The reset supervisor state: an empty graph, with the labels carried over from earlier epochs. */
    constructor (home: Placement, shardNum: nat, maxIterations: int, carried: Labelling)
      requires Into(home, shardNum)
      requires forall v :: v in carried ==> 0 <= carried[v] < shardNum
      ensures Valid() && VertexCountsExact() && fresh(netGraph)
      ensures netGraph.edges == [] && netGraph.vertexSet == {} && partitionMap == carried
      ensures this.home == home && this.shardNum == shardNum && this.maxIterations == maxIterations
    {
      netGraph := new Graph();
      this.home, this.shardNum, this.maxIterations := home, shardNum, maxIterations;
      partitionMap := carried;
      vertexsNumInShard := Zeros(shardNum);
      edges2Shard := [];
      minEdges2Shard, crossShardEdgeNum := 0, 0;
      new;
      forall k
        ensures Members(netGraph.vertexSet, partitionMap, k) == {}
      {
      }
    }

    /** The vertex counts stay exact exactly when the vertex is new. */
    method AddVertex(v: Vertex)
      requires Valid()
      modifies this`partitionMap, this`vertexsNumInShard, netGraph
      ensures Valid()
      ensures netGraph.vertexSet == old(netGraph.vertexSet) + {v} && netGraph.edges == old(netGraph.edges)
      ensures netGraph.edgeSet == old(netGraph.edgeSet)
      ensures partitionMap == if v in old(partitionMap) then old(partitionMap) else old(partitionMap)[v := home(v.addr)]
      ensures old(VertexCountsExact()) ==> (VertexCountsExact() <==> v !in old(netGraph.vertexSet))
    {
      netGraph.AddVertex(v);
      if v !in partitionMap {
        partitionMap := partitionMap[v := home(v.addr)];
      }
      var k := partitionMap[v];
      vertexsNumInShard := vertexsNumInShard[k := vertexsNumInShard[k] + 1];
      ghost var was := old(netGraph.vertexSet);
      if v !in was {
        forall k {
          MembersGrown(was, old(partitionMap), partitionMap, v, k);
        }
      } else {
        assert netGraph.vertexSet == was;
      }
    }

    method AddEdge(u: Vertex, v: Vertex)
      requires Valid()
      modifies this`partitionMap, this`vertexsNumInShard, netGraph
      ensures Valid()
      ensures netGraph.edges == old(netGraph.edges) + [Edge(u, v)]
      ensures netGraph.vertexSet == old(netGraph.vertexSet) + {u, v}
      ensures partitionMap
           == old(partitionMap) + map x | x in {u, v} && x !in old(partitionMap) :: home(x.addr)
      ensures old(VertexCountsExact()) ==> VertexCountsExact()
    {
      if u !in netGraph.vertexSet {
        AddVertex(u);
      }
      if v !in netGraph.vertexSet {
        AddVertex(v);
      }
      ghost var vs := netGraph.vertexSet;
      netGraph.AddEdge(u, v);
      assert netGraph.vertexSet == vs;
    }

    /** The smallest counter. */
    method Minimum(s: seq<int>) returns (m: int)
      ensures IsMinimum(m, s)
    {
      m := MAX_INT;
      for i := 0 to |s|
        invariant IsMinimum(m, s[..i])
      {
        if m > s[i] {
          m := s[i];
        }
      }
      assert s[..|s|] == s;
    }

    /** Sweep one adjacency list of a vertex labelled vShard. */
    method SweepList(lst: seq<Vertex>, vShard: int, cross: seq<int>, inner: seq<int>)
      returns (cross': seq<int>, inner': seq<int>)
      requires |cross| == |inner| == shardNum
      requires forall i :: 0 <= i < |lst| ==> 0 <= LabelOf(partitionMap, lst[i]) < shardNum
      ensures |cross'| == |inner'| == shardNum
      ensures forall k :: 0 <= k < shardNum ==>
                && cross'[k] == cross[k] + (if vShard != k then CountLabel(lst, partitionMap, k) else 0)
                && inner'[k] == inner[k] + (if vShard == k then CountLabel(lst, partitionMap, k) else 0)
    {
      cross', inner' := cross, inner;
      for i := 0 to |lst|
        invariant |cross'| == |inner'| == shardNum
        invariant forall k :: 0 <= k < shardNum ==>
                    && cross'[k] == cross[k] + (if vShard != k then CountLabel(lst[..i], partitionMap, k) else 0)
                    && inner'[k] == inner[k] + (if vShard == k then CountLabel(lst[..i], partitionMap, k) else 0)
      {
        var uShard := LabelOf(partitionMap, lst[i]);
        assert lst[..i + 1][..i] == lst[..i];
        if vShard != uShard {
          cross' := cross'[uShard := cross'[uShard] + 1];
        } else {
          inner' := inner'[uShard := inner'[uShard] + 1];
        }
      }
      assert lst[..|lst|] == lst;
    }

    /** Sweep all adjacency lists, in any order. */
    method SweepLists() returns (cross: seq<int>, inner: seq<int>)
      requires Valid()
      ensures |cross| == |inner| == shardNum
      ensures var done := netGraph.edgeSet.Keys;
              forall k :: 0 <= k < shardNum ==>
                && cross[k] == CrossInto(netGraph.edges, partitionMap, done, k)
                && inner[k] == InnerInto(netGraph.edges, partitionMap, done, k)
    {
      cross, inner := Zeros(shardNum), Zeros(shardNum);
      var todo := netGraph.edgeSet.Keys;
      ghost var done: set<Vertex> := {};
      NothingSwept();
      while todo != {}
        invariant todo <= netGraph.edgeSet.Keys && done == netGraph.edgeSet.Keys - todo
        invariant |cross| == |inner| == shardNum
        invariant forall k :: 0 <= k < shardNum ==>
                    && cross[k] == CrossInto(netGraph.edges, partitionMap, done, k)
                    && inner[k] == InnerInto(netGraph.edges, partitionMap, done, k)
        decreases |todo|
      {
        var v :| v in todo;
        todo := todo - {v};
        NeighboursInRange(v);
        SweptOneMore(done, v);
        cross, inner := SweepList(netGraph.edgeSet[v], LabelOf(partitionMap, v), cross, inner);
        done := done + {v};
      }
      assert done == netGraph.edgeSet.Keys;
    }

    lemma NothingSwept()
      ensures forall k :: CrossInto(netGraph.edges, partitionMap, {}, k) == 0
                       && InnerInto(netGraph.edges, partitionMap, {}, k) == 0
    {
      forall k {
        NothingVisited(netGraph.edges, partitionMap, k);
      }
    }

    lemma SweptOneMore(done: set<Vertex>, v: Vertex)
      requires Valid() && v !in done && v in netGraph.edgeSet
      ensures forall k ::
                && CrossInto(netGraph.edges, partitionMap, done + {v}, k)
                    == CrossInto(netGraph.edges, partitionMap, done, k)
                   + (if LabelOf(partitionMap, v) != k then CountLabel(netGraph.edgeSet[v], partitionMap, k) else 0)
                && InnerInto(netGraph.edges, partitionMap, done + {v}, k)
                    == InnerInto(netGraph.edges, partitionMap, done, k)
                   + (if LabelOf(partitionMap, v) == k then CountLabel(netGraph.edgeSet[v], partitionMap, k) else 0)
    {
      assert AdjacentIn(netGraph.edgeSet, v) == Neighbours(netGraph.edges, v);
      forall k
        ensures CrossInto(netGraph.edges, partitionMap, done + {v}, k)
            == CrossInto(netGraph.edges, partitionMap, done, k)
                + (if LabelOf(partitionMap, v) != k then CountLabel(netGraph.edgeSet[v], partitionMap, k) else 0)
        ensures InnerInto(netGraph.edges, partitionMap, done + {v}, k)
            == InnerInto(netGraph.edges, partitionMap, done, k)
                + (if LabelOf(partitionMap, v) == k then CountLabel(netGraph.edgeSet[v], partitionMap, k) else 0)
      {
        VisitCross(netGraph.edges, partitionMap, done, done + {v}, v, k);
        VisitInner(netGraph.edges, partitionMap, done, done + {v}, v, k);
      }
    }

    method Total(s: seq<int>) returns (total: int)
      ensures total == Plus(s)
    {
      total := 0;
      for i := 0 to |s|
        invariant total == PlusTo(s, i)
      {
        total := total + s[i];
      }
    }

    /** The slow definition of the counters. */
    method ComputeEdges2Shard()
      requires Valid()
      modifies this`edges2Shard, this`minEdges2Shard, this`crossShardEdgeNum
      ensures CountersFor(partitionMap)
      ensures IsMinimum(minEdges2Shard, edges2Shard)
    {
      var cross, inner := SweepLists();
      SweptAll();
      CrossIntoSum(netGraph.edges, partitionMap, netGraph.edgeSet.Keys, cross);
      var total := Total(cross);
      assert total == 2 * CrossCount(netGraph.edges, partitionMap);
      crossShardEdgeNum := total / 2;
      edges2Shard := cross;
      for i := 0 to shardNum
        invariant |edges2Shard| == shardNum && crossShardEdgeNum == total / 2
        invariant forall k :: 0 <= k < shardNum ==> edges2Shard[k] == cross[k] + (if k < i then inner[k] / 2 else 0)
      {
        edges2Shard := edges2Shard[i := edges2Shard[i] + inner[i] / 2];
      }
      forall k | 0 <= k < shardNum
        ensures edges2Shard[k] == TouchCount(netGraph.edges, partitionMap, k)
      {
        FullSweep(netGraph.edges, partitionMap, netGraph.edgeSet.Keys, k);
      }
      minEdges2Shard := Minimum(edges2Shard);
    }

    /** Account for the neighbours of a vertex that moved from one shard to another. */
    method RecountNeighbours(lst: seq<Vertex>, from: int, to: int)
      requires |edges2Shard| == shardNum && 0 <= from < shardNum && 0 <= to < shardNum && from != to
      modifies this`edges2Shard, this`crossShardEdgeNum
      ensures |edges2Shard| == shardNum
      ensures forall k :: 0 <= k < shardNum ==>
                edges2Shard[k] == old(edges2Shard[k])
                                  + (if k == to then |lst| - CountLabel(lst, partitionMap, to) else 0)
                                  - (if k == from then |lst| - CountLabel(lst, partitionMap, from) else 0)
      ensures crossShardEdgeNum == old(crossShardEdgeNum)
                                   + CountLabel(lst, partitionMap, from) - CountLabel(lst, partitionMap, to)
    {
      for i := 0 to |lst|
        invariant |edges2Shard| == shardNum
        invariant forall k :: 0 <= k < shardNum ==>
                    edges2Shard[k] == old(edges2Shard[k])
                                      + (if k == to then i - CountLabel(lst[..i], partitionMap, to) else 0)
                                      - (if k == from then i - CountLabel(lst[..i], partitionMap, from) else 0)
        invariant crossShardEdgeNum == old(crossShardEdgeNum)
                                       + CountLabel(lst[..i], partitionMap, from)
                                       - CountLabel(lst[..i], partitionMap, to)
      {
        assert lst[..i + 1][..i] == lst[..i];
        var neighborShard := LabelOf(partitionMap, lst[i]);
        if neighborShard != to && neighborShard != from {
          edges2Shard := edges2Shard[to := edges2Shard[to] + 1];
          edges2Shard := edges2Shard[from := edges2Shard[from] - 1];
        } else if neighborShard == to {
          edges2Shard := edges2Shard[from := edges2Shard[from] - 1];
          crossShardEdgeNum := crossShardEdgeNum - 1;
        } else {
          edges2Shard := edges2Shard[to := edges2Shard[to] + 1];
          crossShardEdgeNum := crossShardEdgeNum + 1;
        }
      }
      assert lst[..|lst|] == lst;
    }

    /** How far a counter and the cross-shard total are from what they count. */
    ghost function Drift(pm: Labelling, k: int): int
      requires 0 <= k < |edges2Shard|
      reads this, netGraph
    {
      edges2Shard[k] - TouchCount(netGraph.edges, pm, k)
    }

    ghost function CrossDrift(pm: Labelling): int
      reads this, netGraph
    {
      crossShardEdgeNum - CrossCount(netGraph.edges, pm)
    }

    /** The fast form, run after v moved from one shard to another: it adds no drift except for the self-loops
        at v, each of which it misses once at both shards and counts twice against the cross-shard total. So
        it leaves what ComputeEdges2Shard would compute exactly when v has no self-loop. */
    method ChangeShardRecompute(v: Vertex, from: int, ghost before: Labelling)
      requires Valid() && v in netGraph.vertexSet && 0 <= from < shardNum && |edges2Shard| == shardNum
      requires Moved(before, partitionMap, v, from, LabelOf(partitionMap, v))
      modifies this`edges2Shard, this`minEdges2Shard, this`crossShardEdgeNum
      ensures |edges2Shard| == shardNum
      ensures forall k :: 0 <= k < shardNum ==>
                Drift(partitionMap, k) == old(Drift(before, k))
                                          - (if k == from || k == LabelOf(partitionMap, v)
                                             then SelfLoops(netGraph.edges, v) else 0)
      ensures CrossDrift(partitionMap) == old(CrossDrift(before)) - 2 * SelfLoops(netGraph.edges, v)
      ensures old(CountersFor(before)) ==> (CountersFor(partitionMap) <==> SelfLoops(netGraph.edges, v) == 0)
      ensures IsMinimum(minEdges2Shard, edges2Shard)
    {
      var to := LabelOf(partitionMap, v);
      RelabelledBy(v, from, before);
      RecountNeighbours(AdjacentIn(netGraph.edgeSet, v), from, to);
      minEdges2Shard := Minimum(edges2Shard);
    }

    /** The counts before and after the move of v, in terms of v's adjacency list. */
    lemma RelabelledBy(v: Vertex, from: int, before: Labelling)
      requires Valid() && Moved(before, partitionMap, v, from, LabelOf(partitionMap, v))
      ensures var to := LabelOf(partitionMap, v);
              var lst := AdjacentIn(netGraph.edgeSet, v);
              var m := SelfLoops(netGraph.edges, v);
              && (forall k ::
                    TouchCount(netGraph.edges, partitionMap, k)
                    == TouchCount(netGraph.edges, before, k)
                       + (if k == to then |lst| - CountLabel(lst, partitionMap, to) + m else 0)
                       - (if k == from then |lst| - CountLabel(lst, partitionMap, from) - m else 0))
              && CrossCount(netGraph.edges, partitionMap)
                 == CrossCount(netGraph.edges, before)
                    + CountLabel(lst, partitionMap, from) - CountLabel(lst, partitionMap, to) + 2 * m
    {
      var edges, to := netGraph.edges, LabelOf(partitionMap, v);
      assert AdjacentIn(netGraph.edgeSet, v) == Neighbours(edges, v);
      RelabelNew(edges, before, partitionMap, v, from, to);
      RelabelOld(edges, before, partitionMap, v, from, to);
      RelabelCross(edges, before, partitionMap, v, from, to);
      forall k | k != from && k != to
        ensures TouchCount(edges, partitionMap, k) == TouchCount(edges, before, k)
      {
        RelabelOthers(edges, before, partitionMap, v, from, to, k);
      }
    }

    /** The shard the scores prefer for v; each neighbouring shard is scored once. */
    method PickShard(v: Vertex, iter: nat, score: Score) returns (best: int)
      requires Valid()
      ensures best == Pick(Neighbours(netGraph.edges, v), partitionMap, score, iter, v, LabelOf(partitionMap, v)).0
    {
      var lst := AdjacentIn(netGraph.edgeSet, v);
      var neighborShardScore: map<int, real> := map[];
      var maxScore := FLOOR;
      best := LabelOf(partitionMap, v);
      ghost var now := best;
      for i := 0 to |lst|
        invariant (best, maxScore) == Pick(lst[..i], partitionMap, score, iter, v, now)
        invariant forall s :: s in neighborShardScore ==> neighborShardScore[s] == score(iter, v, s) <= maxScore
      {
        assert lst[..i + 1][..i] == lst[..i];
        var uShard := LabelOf(partitionMap, lst[i]);
        if uShard !in neighborShardScore {
          neighborShardScore := neighborShardScore[uShard := score(iter, v, uShard)];
          if maxScore < neighborShardScore[uShard] {
            maxScore := neighborShardScore[uShard];
            best := uShard;
          }
        }
      }
      assert lst[..|lst|] == lst;
    }

    /** Everything is well formed, and counts and cache are what they should be. */
    ghost predicate Exact()
      reads this, netGraph
    {
      Valid() && VertexCountsExact() && |edges2Shard| == shardNum && CacheExact()
    }

    /** The run so far: what the labels, the thresholds and the result map amount to. */
    ghost predicate Stands(st: RunState, thr: map<Address, nat>, res: map<Address, int>)
      reads this
    {
      partitionMap == st.pm && thr == st.thr && res == st.res
    }

    /** The body of the inner loop: the vertex moves as the specification says, and the vertex counts and,
        in a graph without self-loops, the cached counters are right again afterwards. */
    method ConsiderVertex(v: Vertex, iter: nat, score: Score, thr: map<Address, nat>, res: map<Address, int>,
                          ghost st: RunState)
      returns (thr': map<Address, nat>, res': map<Address, int>)
      requires Exact() && v in netGraph.vertexSet && Stands(st, thr, res)
      modifies this`partitionMap, this`vertexsNumInShard, this`edges2Shard, this`minEdges2Shard, this`crossShardEdgeNum
      ensures Exact() && Stands(Visit(netGraph.edges, netGraph.vertexSet, score, iter, st, v), thr', res')
    {
      thr', res' := thr, res;
      if Threshold(thr, v.addr) >= MOVE_LIMIT {
        return;
      }
      var vNowShard := LabelOf(partitionMap, v);
      var best := PickShard(v, iter, score);
      if vNowShard != best && vertexsNumInShard[vNowShard] > 1 {
        BestInRange(v, iter, score);
        res' := res[v.addr := best];
        thr' := thr[v.addr := Threshold(thr, v.addr) + 1];
        MoveVertex(v, best);
      }
    }

    /** Relabel v and bring the vertex counts and the cached counters up to date. */
    method MoveVertex(v: Vertex, best: int)
      requires Exact() && v in netGraph.vertexSet && 0 <= best < shardNum && best != LabelOf(partitionMap, v)
      modifies this`partitionMap, this`vertexsNumInShard, this`edges2Shard, this`minEdges2Shard, this`crossShardEdgeNum
      ensures Exact() && partitionMap == old(partitionMap)[v := best]
    {
      var vNowShard := LabelOf(partitionMap, v);
      ghost var before := partitionMap;
      partitionMap := partitionMap[v := best];
      vertexsNumInShard := vertexsNumInShard[vNowShard := vertexsNumInShard[vNowShard] - 1];
      vertexsNumInShard := vertexsNumInShard[best := vertexsNumInShard[best] + 1];
      assert Valid();
      assert VertexCountsExact() by {
        forall k {
          MembersRelabelled(netGraph.vertexSet, before, partitionMap, v, vNowShard, best, k);
        }
      }
      if NoSelfLoops() {
        NoneAt(netGraph.edges, v);
      }
      ChangeShardRecompute(v, vNowShard, before);
    }

    lemma BestInRange(v: Vertex, iter: nat, score: Score)
      requires Valid() && v in netGraph.vertexSet
      ensures 0 <= Pick(Neighbours(netGraph.edges, v), partitionMap, score, iter, v,
                        LabelOf(partitionMap, v)).0 < shardNum
    {
      PickIsANeighbour(Neighbours(netGraph.edges, v), partitionMap, score, iter, v, LabelOf(partitionMap, v));
      NeighboursAreVertices(netGraph.edges, netGraph.vertexSet, v);
    }

    /** One more visit, and the run after it. */
    method VisitNext(v: Vertex, iter: nat, score: Score, thr: map<Address, nat>, res: map<Address, int>,
                     ghost st: RunState)
      returns (thr': map<Address, nat>, res': map<Address, int>, ghost st': RunState)
      requires Exact() && v in netGraph.vertexSet && Stands(st, thr, res)
      modifies this`partitionMap, this`vertexsNumInShard, this`edges2Shard, this`minEdges2Shard, this`crossShardEdgeNum
      ensures Exact() && Stands(st', thr', res')
      ensures st' == Visit(netGraph.edges, netGraph.vertexSet, score, iter, st, v)
    {
      st' := Visit(netGraph.edges, netGraph.vertexSet, score, iter, st, v);
      thr', res' := ConsiderVertex(v, iter, score, thr, res, st);
    }

    /** One iteration of the outer loop: every vertex once, in the order in which the map is ranged over. */
    method RunIteration(iter: nat, score: Score, order: seq<Vertex>, thr: map<Address, nat>, res: map<Address, int>,
                        ghost st: RunState)
      returns (thr': map<Address, nat>, res': map<Address, int>)
      requires Exact() && Stands(st, thr, res) && IsOrderOf(order, netGraph.vertexSet)
      modifies this`partitionMap, this`vertexsNumInShard, this`edges2Shard, this`minEdges2Shard, this`crossShardEdgeNum
      ensures Exact()
      ensures Stands(Sweep(netGraph.edges, netGraph.vertexSet, score, iter, st, order, |order|), thr', res')
    {
      thr', res' := thr, res;
      ghost var edges, vs, now := netGraph.edges, netGraph.vertexSet, st;
      for i := 0 to |order|
        invariant Exact() && Stands(now, thr', res')
        invariant now == Sweep(edges, vs, score, iter, st, order, i)
      {
        thr', res', now := VisitNext(order[i], iter, score, thr', res', now);
      }
    }

    /** The CLPA algorithm, for any scores and any visiting orders, one per iteration: the labels and the
        returned map are those of the specified run, and every counter is exact at the end. */
    method ClpaPartition(score: Score, orders: seq<seq<Vertex>>) returns (res: map<Address, int>, crossNum: int)
      requires Valid() && VertexCountsExact()
      requires |orders| == if maxIterations > 0 then maxIterations else 0
      requires forall i :: 0 <= i < |orders| ==> IsOrderOf(orders[i], netGraph.vertexSet)
      modifies this`partitionMap, this`vertexsNumInShard, this`edges2Shard, this`minEdges2Shard, this`crossShardEdgeNum
      ensures Valid() && VertexCountsExact() && CountersFor(partitionMap) && IsMinimum(minEdges2Shard, edges2Shard)
      ensures var st := Iterate(netGraph.edges, netGraph.vertexSet, score, Start(old(partitionMap)), orders, |orders|);
              partitionMap == st.pm && res == st.res
      ensures crossNum == CrossCount(netGraph.edges, partitionMap)
    {
      ComputeEdges2Shard();
      res := map[];
      var thr: map<Address, nat> := map[];
      ghost var start := Start(partitionMap);
      for iter := 0 to |orders|
        invariant Exact()
        invariant Stands(Iterate(netGraph.edges, netGraph.vertexSet, score, start, orders, iter), thr, res)
      {
        ghost var st := Iterate(netGraph.edges, netGraph.vertexSet, score, start, orders, iter);
        thr, res := RunIteration(iter, score, orders[iter], thr, res, st);
      }
      ComputeEdges2Shard();
      crossNum := crossShardEdgeNum;
    }

    lemma NeighboursInRange(v: Vertex)
      requires Valid()
      ensures forall i :: 0 <= i < |AdjacentIn(netGraph.edgeSet, v)| ==>
                var u := AdjacentIn(netGraph.edgeSet, v)[i];
                u in netGraph.vertexSet && 0 <= LabelOf(partitionMap, u) < shardNum
    {
      NeighboursAreVertices(netGraph.edges, netGraph.vertexSet, v);
    }

    /** Every edge end has an adjacency list, so sweeping the lists reaches every edge from both ends. */
    lemma SweptAll()
      requires Valid()
      ensures EndsIn(netGraph.edges, netGraph.edgeSet.Keys)
      ensures InRange(netGraph.edges, partitionMap, shardNum)
    {
      forall i | 0 <= i < |netGraph.edges|
        ensures netGraph.edges[i].u in netGraph.edgeSet && netGraph.edges[i].v in netGraph.edgeSet
      {
        ListedAtBothEnds(netGraph.edges, i);
        var e := netGraph.edges[i];
        assert AdjacentIn(netGraph.edgeSet, e.u) != [] && AdjacentIn(netGraph.edgeSet, e.v) != [];
      }
    }
  }

  lemma {:induction false} ListedAtBothEnds(edges: seq<Edge>, i: int)
    requires 0 <= i < |edges|
    ensures Neighbours(edges, edges[i].u) != [] && Neighbours(edges, edges[i].v) != []
  {
    if i < |edges| - 1 {
      ListedAtBothEnds(edges[..|edges| - 1], i);
    }
  }
}
