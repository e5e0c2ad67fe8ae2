/** The transaction graph of partition/graph.go: an undirected multigraph kept as adjacency lists. */
module Graphs {
  import opened Addresses

  datatype Vertex = Vertex(addr: Address)

  /** One undirected edge, in the direction in which it was added. */
  datatype Edge = Edge(u: Vertex, v: Vertex)

  /** The adjacency list of x that a list of undirected edges calls for. */
  function Neighbours(edges: seq<Edge>, x: Vertex): seq<Vertex> {
    if edges == [] then []
    else
      var e := edges[|edges| - 1];
      Neighbours(edges[..|edges| - 1], x) + (if e.u == x then [e.v] else []) + (if e.v == x then [e.u] else [])
  }

  lemma NeighboursSnoc(edges: seq<Edge>, e: Edge, x: Vertex)
    ensures Neighbours(edges + [e], x)
         == Neighbours(edges, x) + (if e.u == x then [e.v] else []) + (if e.v == x then [e.u] else [])
  {
  }

  ghost predicate EndsIn(edges: seq<Edge>, vs: set<Vertex>) {
    forall i :: 0 <= i < |edges| ==> edges[i].u in vs && edges[i].v in vs
  }

  /** Every adjacency list stays inside the vertex set. */
  lemma {:induction false} NeighboursAreVertices(edges: seq<Edge>, vs: set<Vertex>, x: Vertex)
    requires EndsIn(edges, vs)
    ensures forall i :: 0 <= i < |Neighbours(edges, x)| ==> Neighbours(edges, x)[i] in vs
  {
    if edges != [] {
      NeighboursAreVertices(edges[..|edges| - 1], vs, x);
    }
  }

  /** How often y occurs in the list. */
  function Occurrences(lst: seq<Vertex>, y: Vertex): nat {
    if lst == [] then 0
    else Occurrences(lst[..|lst| - 1], y) + (if lst[|lst| - 1] == y then 1 else 0)
  }

  lemma {:induction false} OccurrencesConcat(a: seq<Vertex>, b: seq<Vertex>, y: Vertex)
    ensures Occurrences(a + b, y) == Occurrences(a, y) + Occurrences(b, y)
  {
    if b == [] {
      assert a + b == a;
    } else {
      assert (a + b)[..|a + b| - 1] == a + b[..|b| - 1];
      OccurrencesConcat(a, b[..|b| - 1], y);
    }
  }

  lemma OccurrencesSnoc(rest: seq<Edge>, e: Edge, x: Vertex, y: Vertex)
    ensures Occurrences(Neighbours(rest + [e], x), y)
         == Occurrences(Neighbours(rest, x), y)
          + (if e.u == x && e.v == y then 1 else 0) + (if e.v == x && e.u == y then 1 else 0)
  {
    var p: seq<Vertex> := if e.u == x then [e.v] else [];
    var q: seq<Vertex> := if e.v == x then [e.u] else [];
    NeighboursSnoc(rest, e, x);
    OccurrencesConcat(Neighbours(rest, x) + p, q, y);
    OccurrencesConcat(Neighbours(rest, x), p, y);
    assert Occurrences(p, y) == if e.u == x && e.v == y then 1 else 0;
    assert Occurrences(q, y) == if e.v == x && e.u == y then 1 else 0;
  }

  /** The adjacency lists are symmetric: y is listed at x as often as x is listed at y. */
  lemma {:induction false} NeighboursSymmetric(edges: seq<Edge>, x: Vertex, y: Vertex)
    ensures Occurrences(Neighbours(edges, x), y) == Occurrences(Neighbours(edges, y), x)
  {
    if edges != [] {
      var rest, e := edges[..|edges| - 1], edges[|edges| - 1];
      NeighboursSymmetric(rest, x, y);
      assert edges == rest + [e];
      OccurrencesSnoc(rest, e, x, y);
      OccurrencesSnoc(rest, e, y, x);
    }
  }

  /** The adjacency list of x; a vertex without an entry has the empty list. */
  function AdjacentIn(edgeSet: map<Vertex, seq<Vertex>>, x: Vertex): seq<Vertex> {
    if x in edgeSet then edgeSet[x] else []
  }

  ghost predicate ListsOf(edgeSet: map<Vertex, seq<Vertex>>, edges: seq<Edge>) {
    forall x :: AdjacentIn(edgeSet, x) == Neighbours(edges, x)
  }

  /** Appending each end to the other's list represents the graph with one more undirected edge. */
  lemma AddEdgeKeepsLists(edgeSet: map<Vertex, seq<Vertex>>, edges: seq<Edge>, u: Vertex, v: Vertex)
    requires ListsOf(edgeSet, edges)
    ensures var first := edgeSet[u := AdjacentIn(edgeSet, u) + [v]];
            ListsOf(first[v := AdjacentIn(first, v) + [u]], edges + [Edge(u, v)])
  {
    var first := edgeSet[u := AdjacentIn(edgeSet, u) + [v]];
    var second := first[v := AdjacentIn(first, v) + [u]];
    forall x
      ensures AdjacentIn(second, x) == Neighbours(edges + [Edge(u, v)], x)
    {
      assert AdjacentIn(edgeSet, x) == Neighbours(edges, x);
      NeighboursSnoc(edges, Edge(u, v), x);
    }
  }

  class Graph {
    var vertexSet: set<Vertex>
    var edgeSet: map<Vertex, seq<Vertex>>
    /** The undirected edges added so far; the adjacency lists are their representation. */
    ghost var edges: seq<Edge>

    ghost predicate Valid()
      reads this
    {
      && EndsIn(edges, vertexSet)
      && edgeSet.Keys <= vertexSet
      && ListsOf(edgeSet, edges)
    }

    constructor ()
      ensures Valid()
      ensures vertexSet == {} && edges == []
    {
      vertexSet, edgeSet, edges := {}, map[], [];
    }

    method AddVertex(v: Vertex)
      requires Valid()
      modifies this
      ensures Valid()
      ensures vertexSet == old(vertexSet) + {v} && edges == old(edges) && edgeSet == old(edgeSet)
    {
      vertexSet := vertexSet + {v};
    }

    method AddEdge(u: Vertex, v: Vertex)
      requires Valid()
      modifies this
      ensures Valid()
      ensures vertexSet == old(vertexSet) + {u, v}
      ensures edges == old(edges) + [Edge(u, v)]
    {
      if u !in vertexSet {
        AddVertex(u);
      }
      if v !in vertexSet {
        AddVertex(v);
      }
      AddEdgeKeepsLists(edgeSet, edges, u, v);
      edgeSet := edgeSet[u := AdjacentIn(edgeSet, u) + [v]];
      edgeSet := edgeSet[v := AdjacentIn(edgeSet, v) + [u]];
      edges := edges + [Edge(u, v)];
    }
  }
}
