/** Depth-first traversal (Graph::depthFirstSearch and Graph::dfsUtil in
    Graph.cpp): pre-order, following each vertex's outgoing list in insertion
    order and skipping labels already visited or carried by no vertex. */
module DepthFirst {
  import opened Sequences
  import opened Edges
  import opened Vertices
  import opened Graphs
  import opened Walks

  /** The visiting order of dfsUtil started at u with visited already listed:
      u, then what the outgoing edges of u add, edge by edge. */
  function Dfs<T(==)>(vs: seq<Vertex<T>>, u: T, visited: seq<T>): (r: seq<T>)
    requires u in Labels(vs) && u !in visited
    ensures |r| > |visited| && r[..|visited|] == visited && r[|visited|] == u
    ensures forall x :: x in r ==> x in visited || x in Labels(vs)
    ensures Unvisited(vs, r) <= Unvisited(vs, visited) - {u}
    ensures Distinct(visited) ==> Distinct(r)
    decreases |Unvisited(vs, visited)|, 0, 0
  {
    VisitShrinks(vs, visited, u);
    DfsEdges(vs, OutEdgesOf(vs, u), visited + [u])
  }

  /** What the loop over outs adds to visited: each edge whose end is an
      unvisited vertex label starts a nested traversal. */
  function DfsEdges<T(==)>(vs: seq<Vertex<T>>, outs: seq<Edge<T>>, visited: seq<T>): (r: seq<T>)
    ensures |r| >= |visited| && r[..|visited|] == visited
    ensures forall x :: x in r ==> x in visited || x in Labels(vs)
    ensures Unvisited(vs, r) <= Unvisited(vs, visited)
    ensures Distinct(visited) ==> Distinct(r)
    decreases |Unvisited(vs, visited)|, 1, |outs|
  {
    if outs == [] then visited
    else if outs[0].finish in Labels(vs) && outs[0].finish !in visited then
      UnvisitedCount(vs, visited, Dfs(vs, outs[0].finish, visited));
      DfsEdges(vs, outs[1..], Dfs(vs, outs[0].finish, visited))
    else
      DfsEdges(vs, outs[1..], visited)
  }

  /** Every label Dfs adds is reachable from u. */
  lemma {:induction false} DfsReach<T(!new)>(vs: seq<Vertex<T>>, u: T, visited: seq<T>)
    requires u in Labels(vs) && u !in visited
    ensures forall x :: x in Dfs(vs, u, visited) && x !in visited ==> Reachable(vs, u, x)
    decreases |Unvisited(vs, visited)|, 0, 0
  {
    VisitShrinks(vs, visited, u);
    DfsEdgesReach(vs, OutEdgesOf(vs, u), visited + [u]);
    assert Walk(vs, [], u, u);
    forall x | x in Dfs(vs, u, visited) && x !in visited && x != u
      ensures Reachable(vs, u, x)
    {
      var e :| e in OutEdgesOf(vs, u) && Reachable(vs, e.finish, x);
      ReachableStep(vs, u, e, x);
    }
  }

  /** Every label the loop over outs adds is reachable from the end of one
      of its edges. */
  lemma {:induction false} DfsEdgesReach<T(!new)>(vs: seq<Vertex<T>>, outs: seq<Edge<T>>, visited: seq<T>)
    ensures forall x :: x in DfsEdges(vs, outs, visited) && x !in visited ==>
              exists e :: e in outs && Reachable(vs, e.finish, x)
    decreases |Unvisited(vs, visited)|, 1, |outs|
  {
    if outs != [] {
      if outs[0].finish in Labels(vs) && outs[0].finish !in visited {
        var mid := Dfs(vs, outs[0].finish, visited);
        DfsReach(vs, outs[0].finish, visited);
        UnvisitedCount(vs, visited, mid);
        DfsEdgesReach(vs, outs[1..], mid);
        forall x | x in DfsEdges(vs, outs, visited) && x !in visited
          ensures exists e :: e in outs && Reachable(vs, e.finish, x)
        {
          if x in mid {
            assert outs[0] in outs && Reachable(vs, outs[0].finish, x);
          } else {
            var e :| e in outs[1..] && Reachable(vs, e.finish, x);
            assert e in outs;
          }
        }
      } else {
        DfsEdgesReach(vs, outs[1..], visited);
        forall x | x in DfsEdges(vs, outs, visited) && x !in visited
          ensures exists e :: e in outs && Reachable(vs, e.finish, x)
        {
          var e :| e in outs[1..] && Reachable(vs, e.finish, x);
          assert e in outs;
        }
      }
    }
  }

  /** Every vertex label an edge out of a label Dfs adds leads to is in the
      result. */
  lemma {:induction false} DfsClosed<T>(vs: seq<Vertex<T>>, u: T, visited: seq<T>)
    requires u in Labels(vs) && u !in visited
    ensures forall x, e :: x in Dfs(vs, u, visited) && x !in visited && e in OutEdgesOf(vs, x) && e.finish in Labels(vs)
              ==> e.finish in Dfs(vs, u, visited)
    decreases |Unvisited(vs, visited)|, 0, 0
  {
    VisitShrinks(vs, visited, u);
    DfsEdgesClosed(vs, OutEdgesOf(vs, u), visited + [u]);
  }

  /** The same for the loop over outs, whose own edges' vertex ends are in
      the result as well. */
  lemma {:induction false} DfsEdgesClosed<T>(vs: seq<Vertex<T>>, outs: seq<Edge<T>>, visited: seq<T>)
    ensures forall x, e :: x in DfsEdges(vs, outs, visited) && x !in visited && e in OutEdgesOf(vs, x) && e.finish in Labels(vs)
              ==> e.finish in DfsEdges(vs, outs, visited)
    ensures forall e :: e in outs && e.finish in Labels(vs) ==> e.finish in DfsEdges(vs, outs, visited)
    decreases |Unvisited(vs, visited)|, 1, |outs|
  {
    if outs != [] {
      if outs[0].finish in Labels(vs) && outs[0].finish !in visited {
        var mid := Dfs(vs, outs[0].finish, visited);
        var r := DfsEdges(vs, outs[1..], mid);
        DfsClosed(vs, outs[0].finish, visited);
        UnvisitedCount(vs, visited, mid);
        DfsEdgesClosed(vs, outs[1..], mid);
        PrefixMembers(mid, r);
        assert outs[0].finish in mid;
      } else {
        DfsEdgesClosed(vs, outs[1..], visited);
      }
    }
  }

  /** A traversal from a vertex label visits it first, lists no label twice,
      and visits exactly the vertex labels reachable from it. */
  lemma DfsVisits<T(!new)>(vs: seq<Vertex<T>>, start: T)
    requires start in Labels(vs)
    ensures Visits(vs, start, Dfs(vs, start, []))
  {
    var r := Dfs(vs, start, []);
    DfsReach(vs, start, []);
    DfsClosed(vs, start, []);
    forall x | x in Labels(vs) && Reachable(vs, start, x) ensures x in r {
      var es :| Walk(vs, es, start, x);
      WalkStaysAmongVertices(vs, es, start, x, set y | y in r);
    }
  }

  /** One step of the loop over outs, from index k. */
  lemma DfsEdgesStep<T>(vs: seq<Vertex<T>>, outs: seq<Edge<T>>, k: nat, r: seq<T>)
    requires k < |outs|
    ensures DfsEdges(vs, outs[k..], r) ==
            if outs[k].finish in Labels(vs) && outs[k].finish !in r
            then DfsEdges(vs, outs[k + 1..], Dfs(vs, outs[k].finish, r))
            else DfsEdges(vs, outs[k + 1..], r)
  {
    assert outs[k..][1..] == outs[k + 1..];
  }

  /** dfsUtil: visit v, then recurse into each unvisited vertex its outgoing
      edges lead to, in their order. */
  method DfsUtil<T(==)>(vs: seq<Vertex<T>>, v: Vertex<T>, visited: seq<T>) returns (r: seq<T>)
    requires v.name in Labels(vs) && v.name !in visited && v.outEdges == OutEdgesOf(vs, v.name)
    ensures r == Dfs(vs, v.name, visited)
    decreases |Unvisited(vs, visited)|
  {
    VisitShrinks(vs, visited, v.name);
    r := visited + [v.name];
    var k := 0;
    while k < |v.outEdges|
      invariant k <= |v.outEdges|
      invariant DfsEdges(vs, v.outEdges[k..], r) == Dfs(vs, v.name, visited)
      invariant Unvisited(vs, r) <= Unvisited(vs, visited + [v.name])
    {
      DfsEdgesStep(vs, v.outEdges, k, r);
      var next := FindVertex(vs, v.outEdges[k].finish);
      if next.Some? && vs[next.value].name !in r {
        OutEdgesAt(vs, next.value, vs[next.value].name);
        UnvisitedCount(vs, visited + [v.name], r);
        r := DfsUtil(vs, vs[next.value], r);
      }
      k := k + 1;
    }
    assert v.outEdges[k..] == [];
  }

  /** depthFirstSearch: nothing for a label no vertex carries; otherwise the
      pre-order from the vertex carrying it. */
  method DepthFirstSearch<T(==,!new)>(vs: seq<Vertex<T>>, start: T) returns (visited: seq<T>)
    ensures start !in Labels(vs) ==> visited == []
    ensures start in Labels(vs) ==> visited == Dfs(vs, start, []) && Visits(vs, start, visited)
  {
    var found := FindVertex(vs, start);
    if found.None? {
      return [];
    }
    OutEdgesAt(vs, found.value, start);
    visited := DfsUtil(vs, vs[found.value], []);
    DfsVisits(vs, start);
  }
}
