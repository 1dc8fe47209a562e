/** Walks along outgoing edges, as the search algorithms of Graph.cpp see the
    graph: from a label they look up the first vertex carrying it and follow
    that vertex's outgoing list. */
module Walks {
  import opened Sequences
  import opened Edges
  import opened Vertices
  import opened Graphs

  /** The outgoing list of the first vertex labelled u, or no edges when no
      vertex carries u (findVertex returning null). */
  function OutEdgesOf<T(==)>(vs: seq<Vertex<T>>, u: T): seq<Edge<T>>
  {
    if vs == [] then []
    else if vs[0].name == u then vs[0].outEdges
    else OutEdgesOf(vs[1..], u)
  }

  /** The index FindVertex returns selects the list OutEdgesOf speaks of. */
  lemma {:induction false} OutEdgesAt<T>(vs: seq<Vertex<T>>, i: nat, u: T)
    requires i < |vs| && vs[i].name == u
    requires forall j :: 0 <= j < i ==> vs[j].name != u
    ensures OutEdgesOf(vs, u) == vs[i].outEdges
  {
    if i > 0 {
      OutEdgesAt(vs[1..], i - 1, u);
    }
  }

  lemma {:induction false} OutEdgesAbsent<T>(vs: seq<Vertex<T>>, u: T)
    requires u !in Labels(vs)
    ensures OutEdgesOf(vs, u) == []
  {
    if vs != [] {
      assert vs[0] in vs;
      assert Labels(vs[1..]) <= Labels(vs) by {
        forall x | x in Labels(vs[1..]) ensures x in Labels(vs) {
          var v :| v in vs[1..] && v.name == x;
        }
      }
      OutEdgesAbsent(vs[1..], u);
    }
  }

  /** Only a label some vertex carries has outgoing edges. */
  lemma {:induction false} OutEdgesPresent<T>(vs: seq<Vertex<T>>, u: T)
    requires OutEdgesOf(vs, u) != []
    ensures u in Labels(vs)
  {
    assert vs[0] in vs;
    if vs[0].name != u {
      OutEdgesPresent(vs[1..], u);
      var v :| v in vs[1..] && v.name == u;
      assert v in vs;
    }
  }

  /** es is a walk from a to b: each edge leaves (the vertex looked up by) the
      label the previous edge entered. */
  ghost predicate Walk<T>(vs: seq<Vertex<T>>, es: seq<Edge<T>>, a: T, b: T)
    decreases |es|
  {
    if es == [] then a == b
    else es[0] in OutEdgesOf(vs, a) && Walk(vs, es[1..], es[0].finish, b)
  }

  /** The total weight of a sequence of edges. */
  function Weight<T>(es: seq<Edge<T>>): nat
  {
    if es == [] then 0 else es[0].weight + Weight(es[1..])
  }

  /** The labels a walk from a passes through, a first. */
  function Trace<T>(a: T, es: seq<Edge<T>>): (r: seq<T>)
    ensures |r| == |es| + 1 && r[0] == a
  {
    [a] + (if es == [] then [] else Trace(es[0].finish, es[1..]))
  }

  /** In a consistent graph the edges out of u are the global edges that
      start at u. */
  lemma OutEdgesOfConsistent<T>(vs: seq<Vertex<T>>, es: seq<Edge<T>>, u: T, e: Edge<T>)
    requires Consistent(vs, es)
    ensures e in OutEdgesOf(vs, u) <==> e in es && e.start == u
  {
    if u in Labels(vs) {
      var i :| 0 <= i < |vs| && vs[i].name == u && forall j :: 0 <= j < i ==> vs[j].name != u;
      OutEdgesAt(vs, i, u);
      assert vs[i] in vs;
    } else {
      OutEdgesAbsent(vs, u);
    }
  }

  /** A walk's trace ends at its end point, and consecutive labels of the
      trace are joined by the walk's edges. */
  lemma {:induction false} TraceOfWalk<T>(vs: seq<Vertex<T>>, es: seq<Edge<T>>, a: T, b: T)
    requires Walk(vs, es, a, b)
    ensures Trace(a, es)[|es|] == b
    ensures forall i :: 0 <= i < |es| ==>
              es[i] in OutEdgesOf(vs, Trace(a, es)[i]) && es[i].finish == Trace(a, es)[i + 1]
  {
    if es != [] {
      TraceOfWalk(vs, es[1..], es[0].finish, b);
      var t := Trace(a, es);
      assert t == [a] + Trace(es[0].finish, es[1..]);
      forall i | 0 < i < |es|
        ensures es[i] in OutEdgesOf(vs, t[i]) && es[i].finish == t[i + 1]
      {
        assert es[i] == es[1..][i - 1];
      }
    }
  }

  /** Extending a walk by an edge leaving its end point. */
  lemma {:induction false} WalkSnoc<T>(vs: seq<Vertex<T>>, es: seq<Edge<T>>, a: T, b: T, e: Edge<T>)
    requires Walk(vs, es, a, b) && e in OutEdgesOf(vs, b)
    ensures Walk(vs, es + [e], a, e.finish)
    ensures Weight(es + [e]) == Weight(es) + e.weight
    ensures Trace(a, es + [e]) == Trace(a, es) + [e.finish]
  {
    if es == [] {
      assert [e][1..] == [];
    } else {
      assert (es + [e])[1..] == es[1..] + [e];
      WalkSnoc(vs, es[1..], es[0].finish, b, e);
    }
  }

  /** Some walk leads from a to b. */
  ghost predicate Reachable<T(!new)>(vs: seq<Vertex<T>>, a: T, b: T)
  {
    exists es :: Walk(vs, es, a, b)
  }

  /** An edge out of a followed by a walk from its end is a walk from a. */
  lemma ReachableStep<T(!new)>(vs: seq<Vertex<T>>, a: T, e: Edge<T>, b: T)
    requires e in OutEdgesOf(vs, a) && Reachable(vs, e.finish, b)
    ensures Reachable(vs, a, b)
  {
    var es :| Walk(vs, es, e.finish, b);
    assert ([e] + es)[1..] == es;
    assert Walk(vs, [e] + es, a, b);
  }

  /** A set of labels that contains a and, for each of its labels, every
      vertex label an outgoing edge leads to, contains every vertex label a
      walk from a ends at. */
  lemma {:induction false} WalkStaysAmongVertices<T>(vs: seq<Vertex<T>>, es: seq<Edge<T>>, a: T, b: T, c: set<T>)
    requires Walk(vs, es, a, b) && a in c
    requires forall x, e :: x in c && e in OutEdgesOf(vs, x) && e.finish in Labels(vs) ==> e.finish in c
    ensures b in Labels(vs) ==> b in c
  {
    if es != [] {
      if es[0].finish in Labels(vs) {
        WalkStaysAmongVertices(vs, es[1..], es[0].finish, b, c);
      } else {
        OutEdgesAbsent(vs, es[0].finish);
      }
    }
  }

  /** The labels of vertices that visited does not list. */
  function Unvisited<T>(vs: seq<Vertex<T>>, visited: seq<T>): set<T>
  {
    Labels(vs) - set x | x in visited
  }

  /** Visiting one more vertex label leaves one label fewer unvisited. */
  lemma VisitShrinks<T>(vs: seq<Vertex<T>>, visited: seq<T>, x: T)
    requires x in Labels(vs) && x !in visited
    ensures Unvisited(vs, visited + [x]) == Unvisited(vs, visited) - {x}
    ensures |Unvisited(vs, visited + [x])| < |Unvisited(vs, visited)|
  {
    assert (set y | y in visited + [x]) == (set y | y in visited) + {x};
  }

  /** Fewer unvisited labels are no more of them. */
  lemma UnvisitedCount<T>(vs: seq<Vertex<T>>, visited: seq<T>, visited': seq<T>)
    requires Unvisited(vs, visited') <= Unvisited(vs, visited)
    ensures |Unvisited(vs, visited')| <= |Unvisited(vs, visited)|
  {
    var a, b := Unvisited(vs, visited'), Unvisited(vs, visited);
    assert b == (b - a) + a;
  }

  /** What a traversal from start promises: start comes first, no label
      twice, and exactly the vertex labels reachable from start. */
  ghost predicate Visits<T(!new)>(vs: seq<Vertex<T>>, start: T, visited: seq<T>)
  {
    && |visited| > 0 && visited[0] == start
    && Distinct(visited)
    && forall x :: x in visited <==> x in Labels(vs) && Reachable(vs, start, x)
  }
}
