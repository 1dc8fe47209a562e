/** The graph of TestDijkstra (Tests.h): five vertices 0..4 and nine weighted
    edges, and the three shortest paths the test expects dijkstraPath to
    report on it. */
module Scenario {
  import opened Sequences
  import opened Edges
  import opened Vertices
  import opened Graphs
  import opened Walks
  import opened ShortestPaths
  import opened Routes

  /** The edges in the order the test adds them. */
  function TestEdges(): seq<Edge<int>>
  {
    [Edge(0, 1, 10), Edge(0, 2, 3), Edge(1, 2, 1), Edge(1, 3, 2), Edge(2, 1, 4),
     Edge(2, 3, 8), Edge(2, 4, 2), Edge(3, 4, 7), Edge(4, 3, 9)]
  }

  /** addVertex of a new label: the vertex is appended. */
  method AddAbsentVertex(g: Graph<int>, name: int)
    requires g.Valid() && name !in Labels(g.vertices)
    modifies g
    ensures g.Valid() && g.edges == old(g.edges)
    ensures g.vertices == old(g.vertices) + [NewVertex(name)]
    ensures Labels(g.vertices) == old(Labels(g.vertices)) + {name}
  {
    g.AddVertex(name);
  }

  /** The five vertices appended one by one carry the labels 0..4 in order. */
  lemma TestVerticesInOrder()
    ensures Names([] + [NewVertex(0)] + [NewVertex(1)] + [NewVertex(2)] + [NewVertex(3)] + [NewVertex(4)])
            == [0, 1, 2, 3, 4]
  {
  }

  /** The five addVertex calls: labels 0..4 in order, no edges yet. */
  method AddTestVertices() returns (g: Graph<int>)
    ensures fresh(g) && g.Valid() && g.edges == []
    ensures Names(g.vertices) == [0, 1, 2, 3, 4] && Labels(g.vertices) == {0, 1, 2, 3, 4}
  {
    g := new Graph();
    ghost var vs: seq<Vertex<int>> := [];
    ghost var ls: set<int> := {};
    AddAbsentVertex(g, 0);
    vs, ls := vs + [NewVertex(0)], ls + {0};
    assert g.vertices == vs && Labels(g.vertices) == ls;
    AddAbsentVertex(g, 1);
    vs, ls := vs + [NewVertex(1)], ls + {1};
    assert g.vertices == vs && Labels(g.vertices) == ls;
    AddAbsentVertex(g, 2);
    vs, ls := vs + [NewVertex(2)], ls + {2};
    assert g.vertices == vs && Labels(g.vertices) == ls;
    AddAbsentVertex(g, 3);
    vs, ls := vs + [NewVertex(3)], ls + {3};
    assert g.vertices == vs && Labels(g.vertices) == ls;
    AddAbsentVertex(g, 4);
    vs, ls := vs + [NewVertex(4)], ls + {4};
    assert g.vertices == vs && Labels(g.vertices) == ls;
    TestVerticesInOrder();
  }

  /** addEdge between two present vertices: the edge is appended. */
  method AddPresentEdge(g: Graph<int>, s: int, f: int, w: nat)
    requires g.Valid() && s in Labels(g.vertices) && f in Labels(g.vertices)
    modifies g
    ensures g.Valid()
    ensures g.edges == old(g.edges) + [Edge(s, f, w)]
    ensures Names(g.vertices) == Names(old(g.vertices)) && Labels(g.vertices) == old(Labels(g.vertices))
  {
    var r := g.AddEdge(s, f, w);
  }

  /** The first five addEdge calls. */
  method AddFirstTestEdges(g: Graph<int>) returns (ghost want: seq<Edge<int>>)
    requires g.Valid() && g.edges == [] && Labels(g.vertices) == {0, 1, 2, 3, 4}
    modifies g
    ensures g.Valid() && Labels(g.vertices) == {0, 1, 2, 3, 4}
    ensures Names(g.vertices) == Names(old(g.vertices))
    ensures want == [] + [Edge(0, 1, 10)] + [Edge(0, 2, 3)] + [Edge(1, 2, 1)] + [Edge(1, 3, 2)] + [Edge(2, 1, 4)]
    ensures g.edges == want
  {
    want := [];
    AddPresentEdge(g, 0, 1, 10);
    want := want + [Edge(0, 1, 10)];
    assert g.edges == want;
    AddPresentEdge(g, 0, 2, 3);
    want := want + [Edge(0, 2, 3)];
    assert g.edges == want;
    AddPresentEdge(g, 1, 2, 1);
    want := want + [Edge(1, 2, 1)];
    assert g.edges == want;
    AddPresentEdge(g, 1, 3, 2);
    want := want + [Edge(1, 3, 2)];
    assert g.edges == want;
    AddPresentEdge(g, 2, 1, 4);
    want := want + [Edge(2, 1, 4)];
    assert g.edges == want;
  }

  /** The last four addEdge calls. */
  method AddLastTestEdges(g: Graph<int>, ghost want: seq<Edge<int>>)
    requires g.Valid() && g.edges == want && Labels(g.vertices) == {0, 1, 2, 3, 4}
    modifies g
    ensures g.Valid() && Labels(g.vertices) == {0, 1, 2, 3, 4}
    ensures Names(g.vertices) == Names(old(g.vertices))
    ensures g.edges == want + [Edge(2, 3, 8)] + [Edge(2, 4, 2)] + [Edge(3, 4, 7)] + [Edge(4, 3, 9)]
  {
    ghost var es := want;
    AddPresentEdge(g, 2, 3, 8);
    es := es + [Edge(2, 3, 8)];
    assert g.edges == es;
    AddPresentEdge(g, 2, 4, 2);
    es := es + [Edge(2, 4, 2)];
    assert g.edges == es;
    AddPresentEdge(g, 3, 4, 7);
    es := es + [Edge(3, 4, 7)];
    assert g.edges == es;
    AddPresentEdge(g, 4, 3, 9);
    es := es + [Edge(4, 3, 9)];
    assert g.edges == es;
  }

  /** The nine edges appended one by one are the test's edge list. */
  lemma TestEdgesInOrder()
    ensures [] + [Edge(0, 1, 10)] + [Edge(0, 2, 3)] + [Edge(1, 2, 1)] + [Edge(1, 3, 2)] + [Edge(2, 1, 4)]
            + [Edge(2, 3, 8)] + [Edge(2, 4, 2)] + [Edge(3, 4, 7)] + [Edge(4, 3, 9)] == TestEdges()
  {
  }

  /** The graph TestDijkstra builds. */
  method BuildTestGraph() returns (g: Graph<int>)
    ensures g.Valid() && Labels(g.vertices) == {0, 1, 2, 3, 4}
    ensures Names(g.vertices) == [0, 1, 2, 3, 4] && g.edges == TestEdges()
  {
    g := AddTestVertices();
    ghost var want := AddFirstTestEdges(g);
    AddLastTestEdges(g, want);
    TestEdgesInOrder();
  }

  // ---------------------------------------------------------------------
  // Walks in the test graph.

  /** The edges out of each label are the test's edges that start there. */
  ghost predicate TestOut(vs: seq<Vertex<int>>)
  {
    forall u, e :: e in OutEdgesOf(vs, u) <==> e in TestEdges() && e.start == u
  }

  /** BuildTestGraph's graph is seen so by the search algorithms. */
  lemma BuiltOut(vs: seq<Vertex<int>>, es: seq<Edge<int>>)
    requires Consistent(vs, es) && es == TestEdges()
    ensures TestOut(vs)
  {
    forall u, e ensures e in OutEdgesOf(vs, u) <==> e in es && e.start == u {
      OutEdgesOfConsistent(vs, es, u, e);
    }
  }

  /** Every test edge weighs at least 1, so only the empty walk weighs 0. */
  lemma WeightlessWalk(vs: seq<Vertex<int>>, es: seq<Edge<int>>, a: int, b: int)
    requires TestOut(vs)
    ensures Walk(vs, es, a, b) && Weight(es) == 0 ==> es == [] && a == b
  {
  }

  /** A walk that leaves a weighs at least as much as the lightest test
      edge out of a. */
  lemma LeavingWeight(vs: seq<Vertex<int>>, es: seq<Edge<int>>, a: int, b: int, m: nat)
    requires TestOut(vs)
    requires forall e :: e in TestEdges() && e.start == a ==> e.weight >= m
    ensures Walk(vs, es, a, b) && a != b ==> Weight(es) >= m
  {
  }

  /** The only walk from 1 to 3 of weight at most 2 is the edge 1 -> 3. */
  lemma WalkOneToThree(vs: seq<Vertex<int>>, es: seq<Edge<int>>)
    requires TestOut(vs)
    ensures Walk(vs, es, 1, 3) && Weight(es) <= 2 ==> es == [Edge(1, 3, 2)]
  {
    if Walk(vs, es, 1, 3) && Weight(es) <= 2 {
      LeavingWeight(vs, es[1..], 2, 3, 2);
      WeightlessWalk(vs, es[1..], 3, 3);
    }
  }

  /** The only walk from 2 to 3 of weight at most 6 is 2 -> 1 -> 3. */
  lemma WalkTwoToThree(vs: seq<Vertex<int>>, es: seq<Edge<int>>)
    requires TestOut(vs)
    ensures Walk(vs, es, 2, 3) && Weight(es) <= 6 ==> es == [Edge(2, 1, 4), Edge(1, 3, 2)]
  {
    if Walk(vs, es, 2, 3) && Weight(es) <= 6 {
      LeavingWeight(vs, es[1..], 4, 3, 9);
      WalkOneToThree(vs, es[1..]);
    }
  }

  /** The only walk from 0 to 3 of weight at most 9 is 0 -> 2 -> 1 -> 3. */
  lemma WalkZeroToThree(vs: seq<Vertex<int>>, es: seq<Edge<int>>)
    requires TestOut(vs)
    ensures Walk(vs, es, 0, 3) && Weight(es) <= 9 ==> es == [Edge(0, 2, 3), Edge(2, 1, 4), Edge(1, 3, 2)]
  {
    if Walk(vs, es, 0, 3) && Weight(es) <= 9 {
      WalkTwoToThree(vs, es[1..]);
    }
  }

  /** The only walk from 2 to 4 of weight at most 2 is the edge 2 -> 4. */
  lemma WalkTwoToFour(vs: seq<Vertex<int>>, es: seq<Edge<int>>)
    requires TestOut(vs)
    ensures Walk(vs, es, 2, 4) && Weight(es) <= 2 ==> es == [Edge(2, 4, 2)]
  {
    if Walk(vs, es, 2, 4) && Weight(es) <= 2 {
      WeightlessWalk(vs, es[1..], 4, 4);
    }
  }

  /** The only walk from 0 to 4 of weight at most 5 is 0 -> 2 -> 4. */
  lemma WalkZeroToFour(vs: seq<Vertex<int>>, es: seq<Edge<int>>)
    requires TestOut(vs)
    ensures Walk(vs, es, 0, 4) && Weight(es) <= 5 ==> es == [Edge(0, 2, 3), Edge(2, 4, 2)]
  {
    if Walk(vs, es, 0, 4) && Weight(es) <= 5 {
      WalkTwoToFour(vs, es[1..]);
    }
  }

  /** The only walk from 2 to 1 of weight at most 4 is the edge 2 -> 1. */
  lemma WalkTwoToOne(vs: seq<Vertex<int>>, es: seq<Edge<int>>)
    requires TestOut(vs)
    ensures Walk(vs, es, 2, 1) && Weight(es) <= 4 ==> es == [Edge(2, 1, 4)]
  {
    if Walk(vs, es, 2, 1) && Weight(es) <= 4 {
      WeightlessWalk(vs, es[1..], 1, 1);
      LeavingWeight(vs, es[1..], 4, 1, 9);
    }
  }

  /** The only walk from 0 to 1 of weight at most 7 is 0 -> 2 -> 1. */
  lemma WalkZeroToOne(vs: seq<Vertex<int>>, es: seq<Edge<int>>)
    requires TestOut(vs)
    ensures Walk(vs, es, 0, 1) && Weight(es) <= 7 ==> es == [Edge(0, 2, 3), Edge(2, 1, 4)]
  {
    if Walk(vs, es, 0, 1) && Weight(es) <= 7 {
      WalkTwoToOne(vs, es[1..]);
    }
  }

  // ---------------------------------------------------------------------
  // The three checks of TestDijkstra.

  /** When one walk from s to f is the only one of its weight or less, the
      reported distance of f is its weight and the path is its trace. */
  lemma ShortestIsUnique<T(!new)>(vs: seq<Vertex<T>>, s: T, f: T, i: nat, best: seq<Edge<T>>, r: Path<T>)
    requires Reports(vs, s, f, r) && i < |vs| && vs[i].name == f && Walk(vs, best, s, f)
    requires forall es :: Walk(vs, es, s, f) && Weight(es) <= Weight(best) ==> es == best
    ensures r.distances[i] == Weight(best) && r.path == Trace(s, best)
  {
    assert 0 <= r.distances[i] <= Weight(best);
    assert r.path != [];
    var es :| Walk(vs, es, s, f) && r.path == Trace(s, es) &&
      forall j :: 0 <= j < |vs| && vs[j].name == f ==> r.distances[j] == Weight(es);
    assert r.distances[i] == Weight(es);
  }


  /** The walk the test expects from 0 to 3. */
  lemma BestZeroToThree(vs: seq<Vertex<int>>)
    requires TestOut(vs)
    ensures Walk(vs, [Edge(0, 2, 3), Edge(2, 1, 4), Edge(1, 3, 2)], 0, 3)
    ensures Weight([Edge(0, 2, 3), Edge(2, 1, 4), Edge(1, 3, 2)]) == 9 && Trace(0, [Edge(0, 2, 3), Edge(2, 1, 4), Edge(1, 3, 2)]) == [0, 2, 1, 3]
  {
    assert Walk(vs, [Edge(0, 2, 3), Edge(2, 1, 4), Edge(1, 3, 2)][1..], [Edge(0, 2, 3), Edge(2, 1, 4), Edge(1, 3, 2)][0].finish, 3);
  }

  /** What dijkstraPath(0, 3) reports on the test graph: distance 9, path
      [0, 2, 1, 3]. */
  lemma ReportsZeroToThree(vs: seq<Vertex<int>>, r: Path<int>)
    requires TestOut(vs) && Names(vs) == [0, 1, 2, 3, 4] && Reports(vs, 0, 3, r)
    ensures |r.distances| == 5 && r.distances[3] == 9 && r.path == [0, 2, 1, 3]
  {
    var best := [Edge(0, 2, 3), Edge(2, 1, 4), Edge(1, 3, 2)];
    BestZeroToThree(vs);
    forall es | Walk(vs, es, 0, 3) && Weight(es) <= Weight(best) ensures es == best {
      WalkZeroToThree(vs, es);
    }
    ShortestIsUnique(vs, 0, 3, 3, best, r);
  }

  /** The test's dijkstraPath(0, 3) call. */
  method TestZeroToThree() returns (r: Path<int>)
    ensures |r.distances| == 5 && r.distances[3] == 9 && r.path == [0, 2, 1, 3]
  {
    var g := BuildTestGraph();
    r := DijkstraPath(g.vertices, 0, 3);
    BuiltOut(g.vertices, g.edges);
    ReportsZeroToThree(g.vertices, r);
  }

  /** The walk the test expects from 0 to 4. */
  lemma BestZeroToFour(vs: seq<Vertex<int>>)
    requires TestOut(vs)
    ensures Walk(vs, [Edge(0, 2, 3), Edge(2, 4, 2)], 0, 4)
    ensures Weight([Edge(0, 2, 3), Edge(2, 4, 2)]) == 5 && Trace(0, [Edge(0, 2, 3), Edge(2, 4, 2)]) == [0, 2, 4]
  {
    assert Walk(vs, [Edge(0, 2, 3), Edge(2, 4, 2)][1..], [Edge(0, 2, 3), Edge(2, 4, 2)][0].finish, 4);
  }

  /** What dijkstraPath(0, 4) reports on the test graph: distance 5, path
      [0, 2, 4]. */
  lemma ReportsZeroToFour(vs: seq<Vertex<int>>, r: Path<int>)
    requires TestOut(vs) && Names(vs) == [0, 1, 2, 3, 4] && Reports(vs, 0, 4, r)
    ensures |r.distances| == 5 && r.distances[4] == 5 && r.path == [0, 2, 4]
  {
    var best := [Edge(0, 2, 3), Edge(2, 4, 2)];
    BestZeroToFour(vs);
    forall es | Walk(vs, es, 0, 4) && Weight(es) <= Weight(best) ensures es == best {
      WalkZeroToFour(vs, es);
    }
    ShortestIsUnique(vs, 0, 4, 4, best, r);
  }

  /** The test's dijkstraPath(0, 4) call. */
  method TestZeroToFour() returns (r: Path<int>)
    ensures |r.distances| == 5 && r.distances[4] == 5 && r.path == [0, 2, 4]
  {
    var g := BuildTestGraph();
    r := DijkstraPath(g.vertices, 0, 4);
    BuiltOut(g.vertices, g.edges);
    ReportsZeroToFour(g.vertices, r);
  }

  /** The walk the test expects from 0 to 1. */
  lemma BestZeroToOne(vs: seq<Vertex<int>>)
    requires TestOut(vs)
    ensures Walk(vs, [Edge(0, 2, 3), Edge(2, 1, 4)], 0, 1)
    ensures Weight([Edge(0, 2, 3), Edge(2, 1, 4)]) == 7 && Trace(0, [Edge(0, 2, 3), Edge(2, 1, 4)]) == [0, 2, 1]
  {
    assert Walk(vs, [Edge(0, 2, 3), Edge(2, 1, 4)][1..], [Edge(0, 2, 3), Edge(2, 1, 4)][0].finish, 1);
  }

  /** What dijkstraPath(0, 1) reports on the test graph: distance 7, path
      [0, 2, 1]. */
  lemma ReportsZeroToOne(vs: seq<Vertex<int>>, r: Path<int>)
    requires TestOut(vs) && Names(vs) == [0, 1, 2, 3, 4] && Reports(vs, 0, 1, r)
    ensures |r.distances| == 5 && r.distances[1] == 7 && r.path == [0, 2, 1]
  {
    var best := [Edge(0, 2, 3), Edge(2, 1, 4)];
    BestZeroToOne(vs);
    forall es | Walk(vs, es, 0, 1) && Weight(es) <= Weight(best) ensures es == best {
      WalkZeroToOne(vs, es);
    }
    ShortestIsUnique(vs, 0, 1, 1, best, r);
  }

  /** The test's dijkstraPath(0, 1) call. */
  method TestZeroToOne() returns (r: Path<int>)
    ensures |r.distances| == 5 && r.distances[1] == 7 && r.path == [0, 2, 1]
  {
    var g := BuildTestGraph();
    r := DijkstraPath(g.vertices, 0, 1);
    BuiltOut(g.vertices, g.edges);
    ReportsZeroToOne(g.vertices, r);
  }
}
