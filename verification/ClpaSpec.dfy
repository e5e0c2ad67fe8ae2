/** What the CLPA counters count, said of the undirected edges and a labelling, and how a single
    relabelling changes them. */
module ClpaSpec {
  import opened Graphs
  import opened Multisets

  type Labelling = map<Vertex, int>

  /** A Go map lookup: a vertex without an entry reads as shard 0. */
  function LabelOf(pm: Labelling, v: Vertex): int {
    if v in pm then pm[v] else 0
  }

  function Bit(b: bool): (r: int) {
    if b then 1 else 0
  }

  // ----- The undirected meaning of the counters -----

  predicate Touches(e: Edge, pm: Labelling, k: int) {
    LabelOf(pm, e.u) == k || LabelOf(pm, e.v) == k
  }

  predicate Crosses(e: Edge, pm: Labelling) {
    LabelOf(pm, e.u) != LabelOf(pm, e.v)
  }

  /** The number of edges with at least one end in shard k. */
  function TouchCount(edges: seq<Edge>, pm: Labelling, k: int): int {
    if edges == [] then 0
    else TouchCount(edges[..|edges| - 1], pm, k) + Bit(Touches(edges[|edges| - 1], pm, k))
  }

  /** The number of edges with both ends in shard k. */
  function InnerCount(edges: seq<Edge>, pm: Labelling, k: int): int {
    if edges == [] then 0
    else
      var e := edges[|edges| - 1];
      InnerCount(edges[..|edges| - 1], pm, k) + Bit(LabelOf(pm, e.u) == k && LabelOf(pm, e.v) == k)
  }

  /** The number of edges whose ends are in different shards. */
  function CrossCount(edges: seq<Edge>, pm: Labelling): int {
    if edges == [] then 0
    else CrossCount(edges[..|edges| - 1], pm) + Bit(Crosses(edges[|edges| - 1], pm))
  }

  // ----- The directed counts that a sweep over adjacency lists accumulates -----

  /** The number of entries of a list that are labelled k. */
  function CountLabel(lst: seq<Vertex>, pm: Labelling, k: int): int {
    if lst == [] then 0
    else CountLabel(lst[..|lst| - 1], pm, k) + Bit(LabelOf(pm, lst[|lst| - 1]) == k)
  }

  lemma {:induction false} CountLabelConcat(a: seq<Vertex>, b: seq<Vertex>, pm: Labelling, k: int)
    ensures CountLabel(a + b, pm, k) == CountLabel(a, pm, k) + CountLabel(b, pm, k)
  {
    if b == [] {
      assert a + b == a;
    } else {
      assert (a + b)[..|a + b| - 1] == a + b[..|b| - 1];
      CountLabelConcat(a, b[..|b| - 1], pm, k);
    }
  }

  /** List entries x -> y with x in vs, y labelled k and x labelled otherwise. */
  function CrossInto(edges: seq<Edge>, pm: Labelling, vs: set<Vertex>, k: int): int {
    if edges == [] then 0
    else
      var e := edges[|edges| - 1];
      CrossInto(edges[..|edges| - 1], pm, vs, k)
      + Bit(e.u in vs && LabelOf(pm, e.u) != k && LabelOf(pm, e.v) == k)
      + Bit(e.v in vs && LabelOf(pm, e.v) != k && LabelOf(pm, e.u) == k)
  }

  /** List entries x -> y with x in vs and both x and y labelled k. */
  function InnerInto(edges: seq<Edge>, pm: Labelling, vs: set<Vertex>, k: int): int {
    if edges == [] then 0
    else
      var e := edges[|edges| - 1];
      InnerInto(edges[..|edges| - 1], pm, vs, k)
      + Bit(e.u in vs && LabelOf(pm, e.u) == k && LabelOf(pm, e.v) == k)
      + Bit(e.v in vs && LabelOf(pm, e.v) == k && LabelOf(pm, e.u) == k)
  }

  lemma {:induction false} NothingVisited(edges: seq<Edge>, pm: Labelling, k: int)
    ensures CrossInto(edges, pm, {}, k) == 0 && InnerInto(edges, pm, {}, k) == 0
  {
    if edges != [] {
      NothingVisited(edges[..|edges| - 1], pm, k);
    }
  }

  /** Sweeping one more adjacency list adds the entries of that list, to one count or the other. */
  lemma {:induction false} VisitCross(edges: seq<Edge>, pm: Labelling, vs: set<Vertex>, vs': set<Vertex>, x: Vertex,
                                      k: int)
    requires x !in vs && forall y :: y in vs' <==> y in vs || y == x
    ensures CrossInto(edges, pm, vs', k)
         == CrossInto(edges, pm, vs, k) + (if LabelOf(pm, x) != k then CountLabel(Neighbours(edges, x), pm, k) else 0)
  {
    if edges != [] {
      var rest, e := edges[..|edges| - 1], edges[|edges| - 1];
      VisitCross(rest, pm, vs, vs', x, k);
      CountLabelLast(rest, e, pm, x, k);
      assert edges == rest + [e];
    }
  }

  lemma {:induction false} VisitInner(edges: seq<Edge>, pm: Labelling, vs: set<Vertex>, vs': set<Vertex>, x: Vertex,
                                      k: int)
    requires x !in vs && forall y :: y in vs' <==> y in vs || y == x
    ensures InnerInto(edges, pm, vs', k)
         == InnerInto(edges, pm, vs, k) + (if LabelOf(pm, x) == k then CountLabel(Neighbours(edges, x), pm, k) else 0)
  {
    if edges != [] {
      var rest, e := edges[..|edges| - 1], edges[|edges| - 1];
      VisitInner(rest, pm, vs, vs', x, k);
      CountLabelLast(rest, e, pm, x, k);
      assert edges == rest + [e];
    }
  }

  lemma CountLabelLast(rest: seq<Edge>, e: Edge, pm: Labelling, x: Vertex, k: int)
    ensures CountLabel(Neighbours(rest + [e], x), pm, k)
         == CountLabel(Neighbours(rest, x), pm, k)
          + Bit(e.u == x && LabelOf(pm, e.v) == k) + Bit(e.v == x && LabelOf(pm, e.u) == k)
  {
    var p: seq<Vertex> := if e.u == x then [e.v] else [];
    var q: seq<Vertex> := if e.v == x then [e.u] else [];
    NeighboursSnoc(rest, e, x);
    CountLabelConcat(Neighbours(rest, x) + p, q, pm, k);
    CountLabelConcat(Neighbours(rest, x), p, pm, k);
    assert CountLabel(p, pm, k) == Bit(e.u == x && LabelOf(pm, e.v) == k);
    assert CountLabel(q, pm, k) == Bit(e.v == x && LabelOf(pm, e.u) == k);
  }

  /** After a full sweep the same-shard count is even, halving it is exact, and the sum is TouchCount. */
  lemma {:induction false} FullSweep(edges: seq<Edge>, pm: Labelling, vs: set<Vertex>, k: int)
    requires EndsIn(edges, vs)
    ensures InnerInto(edges, pm, vs, k) == 2 * InnerCount(edges, pm, k)
    ensures CrossInto(edges, pm, vs, k) == TouchCount(edges, pm, k) - InnerCount(edges, pm, k)
  {
    if edges != [] {
      FullSweep(edges[..|edges| - 1], pm, vs, k);
    }
  }

  // ----- Sums over the shards -----

  ghost predicate InRange(edges: seq<Edge>, pm: Labelling, n: int) {
    forall i :: 0 <= i < |edges| ==> 0 <= LabelOf(pm, edges[i].u) < n && 0 <= LabelOf(pm, edges[i].v) < n
  }

  function Zeros(n: nat): (s: seq<int>)
    ensures |s| == n && forall i :: 0 <= i < n ==> s[i] == 0
  {
    seq(n, _ => 0)
  }

  /** Every cross-shard edge is counted at both of its shards. */
  lemma {:induction false} CrossIntoSum(edges: seq<Edge>, pm: Labelling, vs: set<Vertex>, s: seq<int>)
    requires EndsIn(edges, vs) && InRange(edges, pm, |s|)
    requires forall k :: 0 <= k < |s| ==> s[k] == CrossInto(edges, pm, vs, k)
    ensures Plus(s) == 2 * CrossCount(edges, pm)
  {
    if edges == [] {
      PlusZeros(s, |s|);
    } else {
      var rest, e := edges[..|edges| - 1], edges[|edges| - 1];
      var before := seq(|s|, k => CrossInto(rest, pm, vs, k));
      CrossIntoSum(rest, pm, vs, before);
      var d := Bit(Crosses(e, pm));
      assert e.u in vs && e.v in vs;
      PlusBumped(before, s, |s|, LabelOf(pm, e.u), d, LabelOf(pm, e.v), d);
    }
  }

  /** The counters W_k add up to the number of edges plus the number of cross-shard edges. */
  lemma {:induction false} TouchSum(edges: seq<Edge>, pm: Labelling, s: seq<int>)
    requires InRange(edges, pm, |s|)
    requires forall k :: 0 <= k < |s| ==> s[k] == TouchCount(edges, pm, k)
    ensures Plus(s) == |edges| + CrossCount(edges, pm)
  {
    if edges == [] {
      PlusZeros(s, |s|);
    } else {
      var rest, e := edges[..|edges| - 1], edges[|edges| - 1];
      var before := seq(|s|, k => TouchCount(rest, pm, k));
      TouchSum(rest, pm, before);
      PlusBumped(before, s, |s|, LabelOf(pm, e.u), 1, LabelOf(pm, e.v), Bit(Crosses(e, pm)));
    }
  }

  // ----- One relabelling -----

  /** The number of self-loops at v. */
  function SelfLoops(edges: seq<Edge>, v: Vertex): (r: int)
    ensures r >= 0
  {
    if edges == [] then 0
    else
      var e := edges[|edges| - 1];
      SelfLoops(edges[..|edges| - 1], v) + Bit(e.u == v && e.v == v)
  }

  lemma {:induction false} NoneAt(edges: seq<Edge>, v: Vertex)
    requires forall i :: 0 <= i < |edges| ==> edges[i].u != edges[i].v
    ensures SelfLoops(edges, v) == 0
  {
    if edges != [] {
      NoneAt(edges[..|edges| - 1], v);
    }
  }

  /** pm is before with v moved from one shard to a different one. */
  ghost predicate Moved(before: Labelling, pm: Labelling, v: Vertex, from: int, to: int) {
    && from != to
    && LabelOf(before, v) == from
    && LabelOf(pm, v) == to
    && forall x :: x != v ==> LabelOf(pm, x) == LabelOf(before, x)
  }

  /** The change of the counter of v's new shard, computed from v's adjacency list alone. A self-loop at v
      makes it wrong by one, here and in the next two lemmas by as much as they say. */
  lemma {:induction false} RelabelNew(edges: seq<Edge>, before: Labelling, pm: Labelling, v: Vertex, from: int, to: int)
    requires Moved(before, pm, v, from, to)
    ensures TouchCount(edges, pm, to)
         == TouchCount(edges, before, to)
          + |Neighbours(edges, v)| - CountLabel(Neighbours(edges, v), pm, to) + SelfLoops(edges, v)
  {
    if edges != [] {
      var rest, e := edges[..|edges| - 1], edges[|edges| - 1];
      RelabelNew(rest, before, pm, v, from, to);
      CountLabelLast(rest, e, pm, v, to);
      NeighboursSnoc(rest, e, v);
      assert edges == rest + [e];
    }
  }

  lemma {:induction false} RelabelOld(edges: seq<Edge>, before: Labelling, pm: Labelling, v: Vertex, from: int, to: int)
    requires Moved(before, pm, v, from, to)
    ensures TouchCount(edges, pm, from)
         == TouchCount(edges, before, from)
          - |Neighbours(edges, v)| + CountLabel(Neighbours(edges, v), pm, from) + SelfLoops(edges, v)
  {
    if edges != [] {
      var rest, e := edges[..|edges| - 1], edges[|edges| - 1];
      RelabelOld(rest, before, pm, v, from, to);
      CountLabelLast(rest, e, pm, v, from);
      NeighboursSnoc(rest, e, v);
      assert edges == rest + [e];
    }
  }

  lemma {:induction false} RelabelCross(edges: seq<Edge>, before: Labelling, pm: Labelling, v: Vertex, from: int,
                                        to: int)
    requires Moved(before, pm, v, from, to)
    ensures CrossCount(edges, pm)
         == CrossCount(edges, before)
          + CountLabel(Neighbours(edges, v), pm, from) - CountLabel(Neighbours(edges, v), pm, to)
          + 2 * SelfLoops(edges, v)
  {
    if edges != [] {
      var rest, e := edges[..|edges| - 1], edges[|edges| - 1];
      RelabelCross(rest, before, pm, v, from, to);
      CountLabelLast(rest, e, pm, v, to);
      CountLabelLast(rest, e, pm, v, from);
      assert edges == rest + [e];
    }
  }

  lemma {:induction false} RelabelOthers(edges: seq<Edge>, before: Labelling, pm: Labelling, v: Vertex, from: int,
                                         to: int, k: int)
    requires Moved(before, pm, v, from, to) && k != from && k != to
    ensures TouchCount(edges, pm, k) == TouchCount(edges, before, k)
  {
    if edges != [] {
      RelabelOthers(edges[..|edges| - 1], before, pm, v, from, to, k);
    }
  }

  // ----- Vertices per shard -----

  function Members(vs: set<Vertex>, pm: Labelling, k: int): set<Vertex> {
    set v | v in vs && LabelOf(pm, v) == k
  }

  lemma MembersRelabelled(vs: set<Vertex>, before: Labelling, pm: Labelling, v: Vertex, from: int, to: int, k: int)
    requires v in vs && Moved(before, pm, v, from, to)
    ensures |Members(vs, pm, k)| == |Members(vs, before, k)| + Bit(k == to) - Bit(k == from)
  {
    var was, now := Members(vs, before, k), Members(vs, pm, k);
    SameElsewhere(vs, before, pm, v, from, to, k);
    if k == to {
      assert v in now && v !in was;
      OneMore(was, now, v);
    } else if k == from {
      assert v in was && v !in now;
      OneMore(now, was, v);
    } else {
      assert now == was;
    }
  }

  lemma SameElsewhere(vs: set<Vertex>, before: Labelling, pm: Labelling, v: Vertex, from: int, to: int, k: int)
    requires Moved(before, pm, v, from, to)
    ensures forall x :: x != v ==> (x in Members(vs, pm, k) <==> x in Members(vs, before, k))
  {
  }

  lemma OneMore(small: set<Vertex>, big: set<Vertex>, v: Vertex)
    requires v in big && v !in small
    requires forall x :: x != v ==> (x in big <==> x in small)
    ensures |big| == |small| + 1
  {
    assert big == small + {v};
  }

  lemma MembersGrown(vs: set<Vertex>, pm: Labelling, pm': Labelling, v: Vertex, k: int)
    requires v !in vs && forall x :: x in vs ==> LabelOf(pm', x) == LabelOf(pm, x)
    ensures |Members(vs + {v}, pm', k)| == |Members(vs, pm, k)| + Bit(LabelOf(pm', v) == k)
  {
    if LabelOf(pm', v) == k {
      OneMore(Members(vs, pm, k), Members(vs + {v}, pm', k), v);
    } else {
      assert Members(vs + {v}, pm', k) == Members(vs, pm, k);
    }
  }
}
