/** What a run of the CLPA relabelling loop does to the labels, for given visiting orders and scores,
    and the laws every such run obeys. */
module ClpaRuns {
  import opened Addresses
  import opened Graphs
  import opened ClpaSpec
  import Multisets

  const MOVE_LIMIT := 50
  const FLOOR := -9999.0

  /** The score of putting a vertex into a shard in an iteration. A run asks for each such score at most
      once per iteration, so the table stands for whatever the floating-point formula yields there. */
  type Score = (nat, Vertex, int) -> real

  datatype Move = Move(v: Vertex, from: int, to: int)

  /** Labels, moves per address, the result map, and the history of moves. */
  datatype RunState = RunState(pm: Labelling, thr: map<Address, nat>, res: map<Address, int>, moves: seq<Move>)

  function Threshold(thr: map<Address, nat>, a: Address): nat {
    if a in thr then thr[a] else 0
  }

  /** The best shard and its score after looking at the neighbours in the list. */
  function Pick(lst: seq<Vertex>, pm: Labelling, score: Score, iter: nat, v: Vertex, now: int): (int, real) {
    if lst == [] then (now, FLOOR)
    else
      var (best, top) := Pick(lst[..|lst| - 1], pm, score, iter, v, now);
      var u := LabelOf(pm, lst[|lst| - 1]);
      if top < score(iter, v, u) then (u, score(iter, v, u)) else (best, top)
  }

  function Visit(edges: seq<Edge>, vs: set<Vertex>, score: Score, iter: nat, st: RunState, v: Vertex): RunState {
    if Threshold(st.thr, v.addr) >= MOVE_LIMIT then st
    else
      var now := LabelOf(st.pm, v);
      var best := Pick(Neighbours(edges, v), st.pm, score, iter, v, now).0;
      if now != best && |Members(vs, st.pm, now)| > 1 then
        RunState(st.pm[v := best], st.thr[v.addr := Threshold(st.thr, v.addr) + 1],
                 st.res[v.addr := best], st.moves + [Move(v, now, best)])
      else st
  }

  /** An iteration after its first n visits, in the given order. */
  function Sweep(edges: seq<Edge>, vs: set<Vertex>, score: Score, iter: nat, st: RunState, order: seq<Vertex>,
                 n: nat): RunState
    requires n <= |order|
  {
    if n == 0 then st
    else Visit(edges, vs, score, iter, Sweep(edges, vs, score, iter, st, order, n - 1), order[n - 1])
  }

  /** The run after its first n iterations, one order each. */
  function Iterate(edges: seq<Edge>, vs: set<Vertex>, score: Score, st: RunState, orders: seq<seq<Vertex>>,
                   n: nat): RunState
    requires n <= |orders|
  {
    if n == 0 then st
    else Sweep(edges, vs, score, n - 1, Iterate(edges, vs, score, st, orders, n - 1), orders[n - 1], |orders[n - 1]|)
  }

  function Start(pm: Labelling): RunState {
    RunState(pm, map[], map[], [])
  }

  /** Every vertex exactly once: as many distinct entries as there are vertices. */
  ghost predicate IsOrderOf(order: seq<Vertex>, vs: set<Vertex>) {
    && |order| == |vs|
    && (forall i :: 0 <= i < |order| ==> order[i] in vs)
    && (forall i, j :: 0 <= i < j < |order| ==> order[i] != order[j])
  }

  // ----- The choice of a shard -----

  /** The choice is the current shard when no neighbour's shard scores above the floor, and otherwise the
      first neighbour's shard with the largest score. */
  lemma {:induction false} PickIsFirstMaximum(lst: seq<Vertex>, pm: Labelling, score: Score, iter: nat, v: Vertex,
                                              now: int)
    ensures var (best, top) := Pick(lst, pm, score, iter, v, now);
            && top >= FLOOR
            && (forall i :: 0 <= i < |lst| ==> score(iter, v, LabelOf(pm, lst[i])) <= top)
            && if forall i :: 0 <= i < |lst| ==> score(iter, v, LabelOf(pm, lst[i])) <= FLOOR
               then best == now && top == FLOOR
               else
                 exists i :: 0 <= i < |lst| && LabelOf(pm, lst[i]) == best && score(iter, v, best) == top
                             && forall j :: 0 <= j < i ==> score(iter, v, LabelOf(pm, lst[j])) < top
  {
    if lst != [] {
      var n := |lst| - 1;
      PickIsFirstMaximum(lst[..n], pm, score, iter, v, now);
      var (best, top) := Pick(lst[..n], pm, score, iter, v, now);
      if top < score(iter, v, LabelOf(pm, lst[n])) {
        assert !(forall i :: 0 <= i < |lst| ==> score(iter, v, LabelOf(pm, lst[i])) <= FLOOR) by {
          assert score(iter, v, LabelOf(pm, lst[n])) > FLOOR;
        }
      } else if !(forall i :: 0 <= i < n ==> score(iter, v, LabelOf(pm, lst[..n][i])) <= FLOOR) {
        var i :| 0 <= i < n && LabelOf(pm, lst[..n][i]) == best && score(iter, v, best) == top
                 && forall j :: 0 <= j < i ==> score(iter, v, LabelOf(pm, lst[..n][j])) < top;
        assert LabelOf(pm, lst[i]) == best;
        var b :| 0 <= b < n && score(iter, v, LabelOf(pm, lst[..n][b])) > FLOOR;
        assert score(iter, v, LabelOf(pm, lst[b])) > FLOOR;
      } else {
        assert forall i :: 0 <= i < n ==>
                 score(iter, v, LabelOf(pm, lst[i])) == score(iter, v, LabelOf(pm, lst[..n][i]));
      }
    }
  }

  /** A vertex only ever moves to the shard of one of its neighbours. */
  lemma {:induction false} PickIsANeighbour(lst: seq<Vertex>, pm: Labelling, score: Score, iter: nat, v: Vertex,
                                            now: int)
    ensures var best := Pick(lst, pm, score, iter, v, now).0;
            best == now || exists i :: 0 <= i < |lst| && LabelOf(pm, lst[i]) == best
  {
    if lst != [] {
      PickIsANeighbour(lst[..|lst| - 1], pm, score, iter, v, now);
      var best := Pick(lst[..|lst| - 1], pm, score, iter, v, now).0;
      if best != now {
        var i :| 0 <= i < |lst| - 1 && LabelOf(pm, lst[..|lst| - 1][i]) == best;
        assert LabelOf(pm, lst[i]) == best;
      }
    }
  }

  // ----- Laws of a run -----

  /** How often v moved. */
  function MovesOf(moves: seq<Move>, v: Vertex): nat {
    if moves == [] then 0
    else MovesOf(moves[..|moves| - 1], v) + (if moves[|moves| - 1].v == v then 1 else 0)
  }

  /** Labels name shards, and the shards that have a vertex are those that had one under pm0. */
  ghost predicate Placed(vs: set<Vertex>, pm0: Labelling, shardNum: nat, pm: Labelling) {
    && vs <= pm.Keys
    && (forall v :: v in vs ==> 0 <= LabelOf(pm, v) < shardNum)
    && (forall k :: Members(vs, pm, k) == {} <==> Members(vs, pm0, k) == {})
  }

  /** The result map laid over pm0 is the labelling; it names exactly the moved vertices; and the
      threshold map counts the moves, never more than the limit. */
  ghost predicate Recorded(pm0: Labelling, st: RunState) {
    && (forall v: Vertex :: LabelOf(st.pm, v) == if v.addr in st.res then st.res[v.addr] else LabelOf(pm0, v))
    && (forall v: Vertex :: v.addr in st.res <==> MovesOf(st.moves, v) > 0)
    && (forall v: Vertex :: Threshold(st.thr, v.addr) == MovesOf(st.moves, v) <= MOVE_LIMIT)
  }

  ghost predicate MovesWithin(moves: seq<Move>, vs: set<Vertex>) {
    forall i :: 0 <= i < |moves| ==> moves[i].v in vs && moves[i].from != moves[i].to
  }

  /** What holds at every point of a run that began with the labels pm0. */
  ghost predicate Sound(vs: set<Vertex>, pm0: Labelling, shardNum: nat, st: RunState) {
    Placed(vs, pm0, shardNum, st.pm) && Recorded(pm0, st) && MovesWithin(st.moves, vs)
  }

  lemma MovesOfSnoc(moves: seq<Move>, m: Move, v: Vertex)
    ensures MovesOf(moves + [m], v) == MovesOf(moves, v) + (if m.v == v then 1 else 0)
  {
  }

  /** A move between two occupied shards leaves every shard as empty or non-empty as it was. */
  lemma OccupiedStays(vs: set<Vertex>, pm: Labelling, v: Vertex, u: Vertex)
    requires v in vs && u in vs && LabelOf(pm, u) != LabelOf(pm, v) && |Members(vs, pm, LabelOf(pm, v))| > 1
    ensures forall k :: Members(vs, pm[v := LabelOf(pm, u)], k) == {} <==> Members(vs, pm, k) == {}
  {
    var from, to := LabelOf(pm, v), LabelOf(pm, u);
    var now := pm[v := to];
    forall k
      ensures Members(vs, now, k) == {} <==> Members(vs, pm, k) == {}
    {
      MembersRelabelled(vs, pm, now, v, from, to, k);
      assert u in Members(vs, pm, to);
      assert v in Members(vs, now, to);
    }
  }

  lemma VisitKeepsPlaced(edges: seq<Edge>, vs: set<Vertex>, score: Score, iter: nat, pm0: Labelling, shardNum: nat,
                         st: RunState, v: Vertex)
    requires EndsIn(edges, vs) && v in vs && Placed(vs, pm0, shardNum, st.pm)
    ensures Placed(vs, pm0, shardNum, Visit(edges, vs, score, iter, st, v).pm)
  {
    var now, lst := LabelOf(st.pm, v), Neighbours(edges, v);
    var best := Pick(lst, st.pm, score, iter, v, now).0;
    if best != now && |Members(vs, st.pm, now)| > 1 {
      PickIsANeighbour(lst, st.pm, score, iter, v, now);
      var i :| 0 <= i < |lst| && LabelOf(st.pm, lst[i]) == best;
      NeighboursAreVertices(edges, vs, v);
      OccupiedStays(vs, st.pm, v, lst[i]);
    }
  }

  lemma VisitKeepsRecorded(edges: seq<Edge>, vs: set<Vertex>, score: Score, iter: nat, pm0: Labelling, st: RunState,
                           v: Vertex)
    requires Recorded(pm0, st)
    ensures Recorded(pm0, Visit(edges, vs, score, iter, st, v))
  {
    var st' := Visit(edges, vs, score, iter, st, v);
    if st' != st {
      var m := st'.moves[|st.moves|];
      assert st'.moves == st.moves + [m];
      forall x: Vertex
        ensures MovesOf(st'.moves, x) == MovesOf(st.moves, x) + (if x == v then 1 else 0)
        ensures x.addr == v.addr ==> x == v
      {
        MovesOfSnoc(st.moves, m, x);
      }
    }
  }

  lemma VisitKeepsSound(edges: seq<Edge>, vs: set<Vertex>, score: Score, iter: nat, pm0: Labelling, shardNum: nat,
                        st: RunState, v: Vertex)
    requires EndsIn(edges, vs) && v in vs && Sound(vs, pm0, shardNum, st)
    ensures Sound(vs, pm0, shardNum, Visit(edges, vs, score, iter, st, v))
  {
    VisitKeepsPlaced(edges, vs, score, iter, pm0, shardNum, st, v);
    VisitKeepsRecorded(edges, vs, score, iter, pm0, st, v);
  }

  lemma {:induction false} SweepKeepsSound(edges: seq<Edge>, vs: set<Vertex>, score: Score, iter: nat, pm0: Labelling,
                                           shardNum: nat, st: RunState, order: seq<Vertex>, n: nat)
    requires EndsIn(edges, vs) && Sound(vs, pm0, shardNum, st)
    requires n <= |order| && forall i :: 0 <= i < |order| ==> order[i] in vs
    ensures Sound(vs, pm0, shardNum, Sweep(edges, vs, score, iter, st, order, n))
  {
    if n > 0 {
      SweepKeepsSound(edges, vs, score, iter, pm0, shardNum, st, order, n - 1);
      VisitKeepsSound(edges, vs, score, iter, pm0, shardNum, Sweep(edges, vs, score, iter, st, order, n - 1),
                      order[n - 1]);
    }
  }

  lemma SoundAtStart(vs: set<Vertex>, pm: Labelling, shardNum: nat)
    requires vs <= pm.Keys && forall v :: v in vs ==> 0 <= pm[v] < shardNum
    ensures Sound(vs, pm, shardNum, Start(pm))
  {
  }

  /** Every run, whatever the orders and scores: labels stay in range, the set of non-empty shards never
      changes, the result map laid over the old labels is the new labelling and names exactly the vertices
      that moved, and no vertex moves more than fifty times. */
  lemma {:induction false} RunIsSound(edges: seq<Edge>, vs: set<Vertex>, score: Score, pm: Labelling, shardNum: nat,
                                      orders: seq<seq<Vertex>>, n: nat)
    requires EndsIn(edges, vs) && vs <= pm.Keys && forall v :: v in vs ==> 0 <= pm[v] < shardNum
    requires n <= |orders| && forall i :: 0 <= i < |orders| ==> IsOrderOf(orders[i], vs)
    ensures Sound(vs, pm, shardNum, Iterate(edges, vs, score, Start(pm), orders, n))
  {
    if n == 0 {
      SoundAtStart(vs, pm, shardNum);
    } else {
      RunIsSound(edges, vs, score, pm, shardNum, orders, n - 1);
      SweepKeepsSound(edges, vs, score, n - 1, pm, shardNum, Iterate(edges, vs, score, Start(pm), orders, n - 1),
                      orders[n - 1], |orders[n - 1]|);
    }
  }

  // ----- When a vertex moves -----

  /** Another vertex is on v's shard. */
  ghost predicate HasCompany(vs: set<Vertex>, pm: Labelling, v: Vertex) {
    exists u :: u in vs && u != v && LabelOf(pm, u) == LabelOf(pm, v)
  }

  /** What v scores on the shard of the i-th vertex of the list. */
  function ScoreAt(lst: seq<Vertex>, pm: Labelling, score: Score, iter: nat, v: Vertex, i: nat): real
    requires i < |lst|
  {
    score(iter, v, LabelOf(pm, lst[i]))
  }

  /** The shard of the i-th vertex of the list scores above the floor, best of all, and is the first such. */
  ghost predicate FirstBest(lst: seq<Vertex>, pm: Labelling, score: Score, iter: nat, v: Vertex, i: nat) {
    && i < |lst| && ScoreAt(lst, pm, score, iter, v, i) > -9999.0
    && (forall j :: 0 <= j < |lst| ==> ScoreAt(lst, pm, score, iter, v, j) <= ScoreAt(lst, pm, score, iter, v, i))
    && (forall j :: 0 <= j < i ==> ScoreAt(lst, pm, score, iter, v, j) < ScoreAt(lst, pm, score, iter, v, i))
  }

  /** The first best-scored neighbouring shard is k. */
  ghost predicate Prefers(lst: seq<Vertex>, pm: Labelling, score: Score, iter: nat, v: Vertex, k: int) {
    exists i: nat :: FirstBest(lst, pm, score, iter, v, i) && LabelOf(pm, lst[i]) == k
  }

  /** The vertex has moved fewer than fifty times, is not alone on its shard, and prefers another. */
  ghost predicate HasToMove(edges: seq<Edge>, vs: set<Vertex>, score: Score, iter: nat, st: RunState, v: Vertex) {
    && MovesOf(st.moves, v) < 50 && HasCompany(vs, st.pm, v)
    && exists k :: Prefers(Neighbours(edges, v), st.pm, score, iter, v, k) && k != LabelOf(st.pm, v)
  }

  /** The vertex moved from its shard to shard k, and nothing else changed. */
  ghost predicate HasMoved(st: RunState, st': RunState, v: Vertex, k: int) {
    && st'.pm == st.pm[v := k] && st'.res == st.res[v.addr := k]
    && st'.moves == st.moves + [Move(v, LabelOf(st.pm, v), k)]
    && st'.thr == st.thr[v.addr := MovesOf(st.moves, v) + 1]
  }

  lemma PrefersOne(lst: seq<Vertex>, pm: Labelling, score: Score, iter: nat, v: Vertex, k: int, l: int)
    requires Prefers(lst, pm, score, iter, v, k) && Prefers(lst, pm, score, iter, v, l)
    ensures k == l
  {
    var i: nat :| FirstBest(lst, pm, score, iter, v, i) && LabelOf(pm, lst[i]) == k;
    var j: nat :| FirstBest(lst, pm, score, iter, v, j) && LabelOf(pm, lst[j]) == l;
    assert i == j;
  }

  /** No neighbouring shard scores above the floor. */
  ghost predicate AllLow(lst: seq<Vertex>, pm: Labelling, score: Score, iter: nat, v: Vertex) {
    forall i :: 0 <= i < |lst| ==> ScoreAt(lst, pm, score, iter, v, i) <= -9999.0
  }

  /** The shard chosen is the preferred one, or the present one when no shard is preferred. */
  lemma PickPrefers(lst: seq<Vertex>, pm: Labelling, score: Score, iter: nat, v: Vertex, now: int)
    ensures var best := Pick(lst, pm, score, iter, v, now).0;
            if AllLow(lst, pm, score, iter, v) then best == now else Prefers(lst, pm, score, iter, v, best)
  {
    PickIsFirstMaximum(lst, pm, score, iter, v, now);
    var (best, top) := Pick(lst, pm, score, iter, v, now);
    if b :| 0 <= b < |lst| && ScoreAt(lst, pm, score, iter, v, b) > -9999.0 {
      assert score(iter, v, LabelOf(pm, lst[b])) > FLOOR;
      var i: nat :| i < |lst| && LabelOf(pm, lst[i]) == best && score(iter, v, best) == top
                    && forall j :: 0 <= j < i ==> score(iter, v, LabelOf(pm, lst[j])) < top;
      assert FirstBest(lst, pm, score, iter, v, i);
    } else {
      forall i | 0 <= i < |lst|
        ensures score(iter, v, LabelOf(pm, lst[i])) <= FLOOR
      {
        assert ScoreAt(lst, pm, score, iter, v, i) <= -9999.0;
      }
    }
  }

  /** So it is another one exactly when another one is preferred. */
  lemma PickExactly(lst: seq<Vertex>, pm: Labelling, score: Score, iter: nat, v: Vertex, now: int, k: int)
    ensures Prefers(lst, pm, score, iter, v, k) ==> Pick(lst, pm, score, iter, v, now).0 == k
    ensures k != now && Pick(lst, pm, score, iter, v, now).0 == k ==> Prefers(lst, pm, score, iter, v, k)
  {
    PickPrefers(lst, pm, score, iter, v, now);
    if Prefers(lst, pm, score, iter, v, k) {
      var i: nat :| FirstBest(lst, pm, score, iter, v, i) && LabelOf(pm, lst[i]) == k;
      assert ScoreAt(lst, pm, score, iter, v, i) > -9999.0;
      PrefersOne(lst, pm, score, iter, v, k, Pick(lst, pm, score, iter, v, now).0);
    }
  }

  lemma CompanyCounts(vs: set<Vertex>, pm: Labelling, v: Vertex)
    requires v in vs
    ensures HasCompany(vs, pm, v) <==> |Members(vs, pm, LabelOf(pm, v))| > 1
  {
    var rest := Members(vs, pm, LabelOf(pm, v)) - {v};
    assert Members(vs, pm, LabelOf(pm, v)) == rest + {v};
    if u :| u in vs && u != v && LabelOf(pm, u) == LabelOf(pm, v) {
      assert u in rest;
    } else {
      assert rest == {};
    }
  }

  /** A visit relabels a vertex if and only if it has moved fewer than fifty times, another vertex shares its shard, and
      the first best-scored neighbouring shard above -9999 is a different one, which becomes its label. */
  lemma VisitMoves(edges: seq<Edge>, vs: set<Vertex>, score: Score, iter: nat, pm0: Labelling, st: RunState, v: Vertex)
    requires v in vs && Recorded(pm0, st)
    ensures var st' := Visit(edges, vs, score, iter, st, v);
            if HasToMove(edges, vs, score, iter, st, v)
            then exists k :: Prefers(Neighbours(edges, v), st.pm, score, iter, v, k) && HasMoved(st, st', v, k)
            else st' == st
  {
    var lst, now := Neighbours(edges, v), LabelOf(st.pm, v);
    var best := Pick(lst, st.pm, score, iter, v, now).0;
    CompanyCounts(vs, st.pm, v);
    assert Threshold(st.thr, v.addr) == MovesOf(st.moves, v);
    PickExactly(lst, st.pm, score, iter, v, now, best);
    if k :| Prefers(lst, st.pm, score, iter, v, k) && k != now {
      PickExactly(lst, st.pm, score, iter, v, now, k);
    }
  }

  /** The vertex has moved fifty times, is alone on its shard, prefers it, or no neighbouring shard scores above the
      floor. */
  ghost predicate Settled(edges: seq<Edge>, vs: set<Vertex>, score: Score, iter: nat, st: RunState, v: Vertex) {
    var lst := Neighbours(edges, v);
    || MovesOf(st.moves, v) == 50
    || !HasCompany(vs, st.pm, v)
    || Prefers(lst, st.pm, score, iter, v, LabelOf(st.pm, v))
    || AllLow(lst, st.pm, score, iter, v)
  }

  lemma SettledStays(edges: seq<Edge>, vs: set<Vertex>, score: Score, iter: nat, pm0: Labelling, st: RunState,
                     v: Vertex)
    requires v in vs && Recorded(pm0, st)
    ensures Settled(edges, vs, score, iter, st, v) <==> !HasToMove(edges, vs, score, iter, st, v)
  {
    var lst, now := Neighbours(edges, v), LabelOf(st.pm, v);
    var best := Pick(lst, st.pm, score, iter, v, now).0;
    assert MovesOf(st.moves, v) <= MOVE_LIMIT;
    PickPrefers(lst, st.pm, score, iter, v, now);
    PickExactly(lst, st.pm, score, iter, v, now, now);
    PickExactly(lst, st.pm, score, iter, v, now, best);
    if k :| Prefers(lst, st.pm, score, iter, v, k) && k != now {
      PickExactly(lst, st.pm, score, iter, v, now, k);
    }
  }

  /** The next visit moves nothing either if and only if its vertex is settled. */
  lemma QuietNext(edges: seq<Edge>, vs: set<Vertex>, score: Score, iter: nat, pm0: Labelling, st: RunState,
                  before: RunState, v: Vertex)
    requires v in vs && Recorded(pm0, st)
    requires |before.moves| >= |st.moves| && (|before.moves| == |st.moves| ==> before == st)
    ensures var after := Visit(edges, vs, score, iter, before, v);
            && |after.moves| >= |before.moves|
            && (|after.moves| == |st.moves| <==> before == st && Settled(edges, vs, score, iter, st, v))
            && (|after.moves| == |st.moves| ==> after == st)
  {
    VisitMoves(edges, vs, score, iter, pm0, st, v);
    SettledStays(edges, vs, score, iter, pm0, st, v);
  }

  ghost predicate AllSettled(edges: seq<Edge>, vs: set<Vertex>, score: Score, iter: nat, st: RunState,
                             order: seq<Vertex>, n: nat)
    requires n <= |order|
  {
    forall i :: 0 <= i < n ==> Settled(edges, vs, score, iter, st, order[i])
  }

  /** The sweep has moved nothing if and only if the first n vertices are settled, and then it has changed nothing. */
  ghost predicate QuietSoFar(edges: seq<Edge>, vs: set<Vertex>, score: Score, iter: nat, st: RunState,
                             order: seq<Vertex>, n: nat, now: RunState)
    requires n <= |order|
  {
    && |now.moves| >= |st.moves|
    && (|now.moves| == |st.moves| <==> AllSettled(edges, vs, score, iter, st, order, n))
    && (|now.moves| == |st.moves| ==> now == st)
  }

  lemma QuietOneMore(edges: seq<Edge>, vs: set<Vertex>, score: Score, iter: nat, pm0: Labelling, st: RunState,
                     order: seq<Vertex>, n: nat, now: RunState)
    requires Recorded(pm0, st) && n < |order| && order[n] in vs
    requires QuietSoFar(edges, vs, score, iter, st, order, n, now)
    ensures QuietSoFar(edges, vs, score, iter, st, order, n + 1, Visit(edges, vs, score, iter, now, order[n]))
  {
    QuietNext(edges, vs, score, iter, pm0, st, now, order[n]);
    assert AllSettled(edges, vs, score, iter, st, order, n + 1)
      <==> AllSettled(edges, vs, score, iter, st, order, n) && Settled(edges, vs, score, iter, st, order[n]);
  }

  lemma QuietSweepNext(edges: seq<Edge>, vs: set<Vertex>, score: Score, iter: nat, pm0: Labelling, st: RunState,
                       order: seq<Vertex>, n: nat)
    requires Recorded(pm0, st) && 0 < n <= |order| && order[n - 1] in vs
    requires QuietSoFar(edges, vs, score, iter, st, order, n - 1, Sweep(edges, vs, score, iter, st, order, n - 1))
    ensures QuietSoFar(edges, vs, score, iter, st, order, n, Sweep(edges, vs, score, iter, st, order, n))
  {
    QuietOneMore(edges, vs, score, iter, pm0, st, order, n - 1, Sweep(edges, vs, score, iter, st, order, n - 1));
  }

  lemma QuietAtStart(edges: seq<Edge>, vs: set<Vertex>, score: Score, iter: nat, st: RunState, order: seq<Vertex>)
    ensures QuietSoFar(edges, vs, score, iter, st, order, 0, Sweep(edges, vs, score, iter, st, order, 0))
  {
  }

  lemma {:induction false} SweepQuiet(edges: seq<Edge>, vs: set<Vertex>, score: Score, iter: nat, pm0: Labelling,
                                      st: RunState, order: seq<Vertex>, n: nat)
    requires Recorded(pm0, st) && n <= |order| && forall i :: 0 <= i < |order| ==> order[i] in vs
    ensures QuietSoFar(edges, vs, score, iter, st, order, n, Sweep(edges, vs, score, iter, st, order, n))
  {
    if n == 0 {
      QuietAtStart(edges, vs, score, iter, st, order);
    } else {
      SweepQuiet(edges, vs, score, iter, pm0, st, order, n - 1);
      QuietSweepNext(edges, vs, score, iter, pm0, st, order, n);
    }
  }

  function SetOf(order: seq<Vertex>): set<Vertex> {
    set v | v in order
  }

  /** As many different vertices as there are, are all of them. */
  lemma AllVisited(order: seq<Vertex>, vs: set<Vertex>)
    requires IsOrderOf(order, vs)
    ensures SetOf(order) == vs
  {
    OrderSize(order);
    Multisets.SameSize(SetOf(order), vs);
  }

  lemma {:induction false} OrderSize(order: seq<Vertex>)
    requires forall i, j :: 0 <= i < j < |order| ==> order[i] != order[j]
    ensures |SetOf(order)| == |order|
  {
    if order != [] {
      var n := |order| - 1;
      OrderSize(order[..n]);
      assert SetOf(order) == SetOf(order[..n]) + {order[n]};
    }
  }

  /** In every run an iteration moves nothing if and only if each vertex has moved fifty times, is alone on its shard,
      is on the shard it prefers, or has no neighbouring shard that scores above the floor; and then it changes
      nothing. */
  lemma QuietExactly(edges: seq<Edge>, vs: set<Vertex>, score: Score, pm: Labelling, shardNum: nat,
                     orders: seq<seq<Vertex>>, n: nat)
    requires EndsIn(edges, vs) && vs <= pm.Keys && forall v :: v in vs ==> 0 <= pm[v] < shardNum
    requires n < |orders| && forall i :: 0 <= i < |orders| ==> IsOrderOf(orders[i], vs)
    ensures var st := Iterate(edges, vs, score, Start(pm), orders, n);
            var st' := Iterate(edges, vs, score, Start(pm), orders, n + 1);
            && (|st'.moves| == |st.moves| <==> forall v :: v in vs ==> Settled(edges, vs, score, n, st, v))
            && (|st'.moves| == |st.moves| ==> st' == st)
  {
    var st := Iterate(edges, vs, score, Start(pm), orders, n);
    RunIsSound(edges, vs, score, pm, shardNum, orders, n);
    SweepQuiet(edges, vs, score, n, pm, st, orders[n], |orders[n]|);
    AllVisited(orders[n], vs);
    assert forall v :: v in vs <==> v in SetOf(orders[n]);
  }

  // ----- The bound on the number of moves -----

  lemma {:induction false} SweepMoves(edges: seq<Edge>, vs: set<Vertex>, score: Score, iter: nat, st: RunState,
                                      order: seq<Vertex>, n: nat)
    requires n <= |order|
    ensures |Sweep(edges, vs, score, iter, st, order, n).moves| <= |st.moves| + n
  {
    if n > 0 {
      SweepMoves(edges, vs, score, iter, st, order, n - 1);
    }
  }

  /** An iteration moves no vertex twice. */
  lemma {:induction false} RunMoves(edges: seq<Edge>, vs: set<Vertex>, score: Score, st: RunState,
                                    orders: seq<seq<Vertex>>, n: nat)
    requires n <= |orders| && forall i :: 0 <= i < |orders| ==> |orders[i]| == |vs|
    ensures |Iterate(edges, vs, score, st, orders, n).moves| <= |st.moves| + n * |vs|
  {
    if n > 0 {
      RunMoves(edges, vs, score, st, orders, n - 1);
      SweepMoves(edges, vs, score, n - 1, Iterate(edges, vs, score, st, orders, n - 1), orders[n - 1], |orders[n - 1]|);
      OneMoreTimes(n - 1, |vs|);
    }
  }

  lemma OneMoreTimes(n: nat, m: nat)
    ensures (n + 1) * m == n * m + m
  {
  }

  function Without(moves: seq<Move>, v: Vertex): seq<Move> {
    if moves == [] then []
    else Without(moves[..|moves| - 1], v) + (if moves[|moves| - 1].v == v then [] else [moves[|moves| - 1]])
  }

  lemma {:induction false} WithoutCounts(moves: seq<Move>, v: Vertex, u: Vertex)
    ensures |moves| == |Without(moves, v)| + MovesOf(moves, v)
    ensures u != v ==> MovesOf(Without(moves, v), u) == MovesOf(moves, u)
  {
    if moves != [] {
      var rest, m := moves[..|moves| - 1], moves[|moves| - 1];
      WithoutCounts(rest, v, u);
      assert Without(rest, v) + [] == Without(rest, v);
      MovesOfSnoc(Without(rest, v), m, u);
    }
  }

  lemma {:induction false} WithoutWithin(moves: seq<Move>, v: Vertex, vs: set<Vertex>)
    requires MovesWithin(moves, vs)
    ensures MovesWithin(Without(moves, v), vs - {v})
  {
    if moves != [] {
      WithoutWithin(moves[..|moves| - 1], v, vs);
    }
  }

  lemma {:induction false} MovesBounded(moves: seq<Move>, vs: set<Vertex>, limit: nat)
    requires MovesWithin(moves, vs)
    requires forall v :: v in vs ==> MovesOf(moves, v) <= limit
    ensures |moves| <= limit * |vs|
    decreases |vs|
  {
    if moves != [] {
      OneOfThem(moves, vs);
      var v :| v in vs;
      var rest := Without(moves, v);
      WithoutWithin(moves, v, vs);
      forall u | u in vs - {v}
        ensures MovesOf(rest, u) <= limit
      {
        WithoutCounts(moves, v, u);
      }
      WithoutCounts(moves, v, v);
      MovesBounded(rest, vs - {v}, limit);
      TimesOneMore(limit, |vs - {v}|);
    }
  }

  lemma OneOfThem(moves: seq<Move>, vs: set<Vertex>)
    requires moves != [] && MovesWithin(moves, vs)
    ensures vs != {}
  {
    assert moves[0].v in vs;
  }

  lemma TimesOneMore(m: nat, n: nat)
    ensures m * (n + 1) == m * n + m
  {
  }

  /** A run of n iterations makes at most min(50, n) moves per vertex in total. */
  lemma TotalMoves(edges: seq<Edge>, vs: set<Vertex>, score: Score, pm: Labelling, shardNum: nat,
                   orders: seq<seq<Vertex>>, n: nat)
    requires EndsIn(edges, vs) && vs <= pm.Keys && forall v :: v in vs ==> 0 <= pm[v] < shardNum
    requires n <= |orders| && forall i :: 0 <= i < |orders| ==> IsOrderOf(orders[i], vs)
    ensures |Iterate(edges, vs, score, Start(pm), orders, n).moves| <= (if n < MOVE_LIMIT then n else MOVE_LIMIT) * |vs|
  {
    RunIsSound(edges, vs, score, pm, shardNum, orders, n);
    RunMoves(edges, vs, score, Start(pm), orders, n);
    MovesBounded(Iterate(edges, vs, score, Start(pm), orders, n).moves, vs, MOVE_LIMIT);
  }
}
