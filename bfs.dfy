/** Breadth-first traversal (Graph::breadthFirstSearch in Graph.cpp): a queue
    of vertices, each label marked visited when it is first enqueued, outgoing
    lists followed in insertion order and labels carried by no vertex skipped. */
module BreadthFirst {
  import opened Sequences
  import opened Edges
  import opened Vertices
  import opened Graphs
  import opened Walks

  /** n is the least number of edges of a walk from a to b. */
  ghost predicate ShortestHops<T(!new)>(vs: seq<Vertex<T>>, a: T, b: T, n: nat)
  {
    && (exists es :: Walk(vs, es, a, b) && |es| == n)
    && forall es :: Walk(vs, es, a, b) ==> n <= |es|
  }

  /** hops gives each visited label its least number of edges from start,
      and these never decrease along visited. */
  ghost predicate ByHops<T(!new)>(vs: seq<Vertex<T>>, start: T, visited: seq<T>, hops: map<T, nat>)
  {
    && (forall i :: 0 <= i < |visited| ==> visited[i] in hops && ShortestHops(vs, start, visited[i], hops[visited[i]]))
    && forall i, j :: 0 <= i <= j < |visited| ==> hops[visited[i]] <= hops[visited[j]]
  }

  // ---------------------------------------------------------------------
  // Loop invariants.

  /** What both loops keep: visited lists distinct vertex labels from start
      on; the queue holds the vertices of a suffix of visited; every visited
      label has a recorded walk from start as long as its hop count; and hop
      counts never decrease along visited. */
  ghost predicate Core<T>(vs: seq<Vertex<T>>, start: T, visited: seq<T>, queue: seq<Vertex<T>>,
                          hops: map<T, nat>, walks: map<T, seq<Edge<T>>>)
  {
    && |queue| <= |visited| && 0 < |visited| && visited[0] == start
    && Distinct(visited)
    && (forall i :: 0 <= i < |visited| ==> visited[i] in Labels(vs))
    && (forall i :: 0 <= i < |queue| ==>
          queue[i].name == visited[|visited| - |queue| + i] && queue[i].outEdges == OutEdgesOf(vs, queue[i].name))
    && (forall x :: x in visited ==> x in hops && x in walks && Walk(vs, walks[x], start, x) && |walks[x]| == hops[x])
    && hops[start] == 0
    && (forall i, j :: 0 <= i <= j < |visited| ==> hops[visited[i]] <= hops[visited[j]])
  }

  /** The first p labels of visited are done: every vertex label their
      outgoing edges lead to is visited, at most one hop further. */
  ghost predicate Closed<T>(vs: seq<Vertex<T>>, visited: seq<T>, hops: map<T, nat>, p: nat)
  {
    forall i, e :: 0 <= i < p && i < |visited| && e in OutEdgesOf(vs, visited[i]) && e.finish in Labels(vs) ==>
      e.finish in visited && e.finish in hops && visited[i] in hops && hops[e.finish] <= hops[visited[i]] + 1
  }

  /** The invariant of the outer loop: the labels before the queue are done,
      and the queue spans at most two consecutive hop counts. */
  ghost predicate Outer<T>(vs: seq<Vertex<T>>, start: T, visited: seq<T>, queue: seq<Vertex<T>>,
                           hops: map<T, nat>, walks: map<T, seq<Edge<T>>>)
  {
    && Core(vs, start, visited, queue, hops, walks)
    && Closed(vs, visited, hops, |visited| - |queue|)
    && (|queue| > 0 ==> forall i :: |visited| - |queue| <= i < |visited| ==>
          hops[visited[i]] <= hops[visited[|visited| - |queue|]] + 1)
  }

  /** The invariant of the inner loop over the edges of cur, the label at
      index p of visited: the edges before k are done. */
  ghost predicate Inner<T>(vs: seq<Vertex<T>>, start: T, visited: seq<T>, queue: seq<Vertex<T>>,
                           hops: map<T, nat>, walks: map<T, seq<Edge<T>>>, cur: Vertex<T>, p: nat, k: nat)
  {
    && Core(vs, start, visited, queue, hops, walks)
    && p < |visited| && |visited| - |queue| == p + 1 && visited[p] == cur.name
    && cur.outEdges == OutEdgesOf(vs, cur.name) && k <= |cur.outEdges|
    && Closed(vs, visited, hops, p)
    && (forall i :: p <= i < |visited| ==> hops[visited[i]] <= hops[cur.name] + 1)
    && (forall e :: e in cur.outEdges[..k] && e.finish in Labels(vs) ==>
          e.finish in visited && hops[e.finish] <= hops[cur.name] + 1)
  }

  // ---------------------------------------------------------------------
  // One lemma per step of the loops.

  /** The state before the outer loop: start visited and enqueued. */
  lemma BfsStarts<T>(vs: seq<Vertex<T>>, start: T, visited: seq<T>, queue: seq<Vertex<T>>,
                     hops: map<T, nat>, walks: map<T, seq<Edge<T>>>)
    requires start in Labels(vs) && visited == [start] && hops == map[start := 0] && walks == map[start := []]
    requires |queue| == 1 && queue[0].name == start && queue[0].outEdges == OutEdgesOf(vs, start)
    ensures Outer(vs, start, visited, queue, hops, walks)
  {
    assert Walk(vs, [], start, start);
  }

  /** Taking the front of the queue starts the loop over its edges. */
  lemma PopStep<T>(vs: seq<Vertex<T>>, start: T, visited: seq<T>, queue: seq<Vertex<T>>,
                   hops: map<T, nat>, walks: map<T, seq<Edge<T>>>)
    requires Outer(vs, start, visited, queue, hops, walks) && |queue| > 0
    ensures Inner(vs, start, visited, queue[1..], hops, walks, queue[0], |visited| - |queue|, 0)
  {
    assert queue[0].outEdges[..0] == [];
  }

  /** Enqueuing a newly found vertex w one hop beyond cur. */
  lemma VisitStep<T>(vs: seq<Vertex<T>>, start: T, visited: seq<T>, queue: seq<Vertex<T>>,
                     hops: map<T, nat>, walks: map<T, seq<Edge<T>>>, cur: Vertex<T>, p: nat, k: nat, w: Vertex<T>)
    requires Inner(vs, start, visited, queue, hops, walks, cur, p, k) && k < |cur.outEdges|
    requires w.name == cur.outEdges[k].finish && w.outEdges == OutEdgesOf(vs, w.name)
    requires w.name in Labels(vs) && w.name !in visited
    ensures Inner(vs, start, visited + [w.name], queue + [w], hops[w.name := hops[cur.name] + 1],
                  walks[w.name := walks[cur.name] + [cur.outEdges[k]]], cur, p, k + 1)
  {
    VisitKeepsCore(vs, start, visited, queue, hops, walks, cur, p, k, w);
    assert cur.outEdges[..k + 1] == cur.outEdges[..k] + [cur.outEdges[k]];
  }

  lemma VisitKeepsCore<T>(vs: seq<Vertex<T>>, start: T, visited: seq<T>, queue: seq<Vertex<T>>,
                          hops: map<T, nat>, walks: map<T, seq<Edge<T>>>, cur: Vertex<T>, p: nat, k: nat, w: Vertex<T>)
    requires Inner(vs, start, visited, queue, hops, walks, cur, p, k) && k < |cur.outEdges|
    requires w.name == cur.outEdges[k].finish && w.outEdges == OutEdgesOf(vs, w.name)
    requires w.name in Labels(vs) && w.name !in visited
    ensures Core(vs, start, visited + [w.name], queue + [w], hops[w.name := hops[cur.name] + 1],
                 walks[w.name := walks[cur.name] + [cur.outEdges[k]]])
  {
    assert visited[0] in visited;
    DistinctSnoc(visited, w.name);
    assert forall i :: 0 <= i < |visited + [w.name]| ==> (visited + [w.name])[i] in Labels(vs);
    VisitKeepsQueue(vs, start, visited, queue, hops, walks, cur, p, k, w);
    VisitKeepsWalks(vs, start, visited, queue, hops, walks, cur, p, k, w);
    VisitKeepsOrder(vs, start, visited, queue, hops, walks, cur, p, k, w);
  }

  lemma VisitKeepsQueue<T>(vs: seq<Vertex<T>>, start: T, visited: seq<T>, queue: seq<Vertex<T>>,
                          hops: map<T, nat>, walks: map<T, seq<Edge<T>>>, cur: Vertex<T>, p: nat, k: nat, w: Vertex<T>)
    requires Inner(vs, start, visited, queue, hops, walks, cur, p, k) && k < |cur.outEdges|
    requires w.name == cur.outEdges[k].finish && w.outEdges == OutEdgesOf(vs, w.name)
    requires w.name in Labels(vs) && w.name !in visited
    ensures forall i :: 0 <= i < |queue + [w]| ==>
              (queue + [w])[i].name == (visited + [w.name])[|visited| - |queue| + i]
              && (queue + [w])[i].outEdges == OutEdgesOf(vs, (queue + [w])[i].name)
  {
  }

  lemma VisitKeepsWalks<T>(vs: seq<Vertex<T>>, start: T, visited: seq<T>, queue: seq<Vertex<T>>,
                          hops: map<T, nat>, walks: map<T, seq<Edge<T>>>, cur: Vertex<T>, p: nat, k: nat, w: Vertex<T>)
    requires Inner(vs, start, visited, queue, hops, walks, cur, p, k) && k < |cur.outEdges|
    requires w.name == cur.outEdges[k].finish && w.outEdges == OutEdgesOf(vs, w.name)
    requires w.name in Labels(vs) && w.name !in visited
    ensures forall x :: x in visited + [w.name] ==>
              && x in hops[w.name := hops[cur.name] + 1]
              && x in walks[w.name := walks[cur.name] + [cur.outEdges[k]]]
              && Walk(vs, walks[w.name := walks[cur.name] + [cur.outEdges[k]]][x], start, x)
              && |walks[w.name := walks[cur.name] + [cur.outEdges[k]]][x]| == hops[w.name := hops[cur.name] + 1][x]
  {
    assert cur.outEdges[k] in OutEdgesOf(vs, cur.name);
    WalkSnoc(vs, walks[cur.name], start, cur.name, cur.outEdges[k]);
  }

  lemma VisitKeepsOrder<T>(vs: seq<Vertex<T>>, start: T, visited: seq<T>, queue: seq<Vertex<T>>,
                          hops: map<T, nat>, walks: map<T, seq<Edge<T>>>, cur: Vertex<T>, p: nat, k: nat, w: Vertex<T>)
    requires Inner(vs, start, visited, queue, hops, walks, cur, p, k) && k < |cur.outEdges|
    requires w.name == cur.outEdges[k].finish && w.outEdges == OutEdgesOf(vs, w.name)
    requires w.name in Labels(vs) && w.name !in visited
    ensures forall i, j :: 0 <= i <= j < |visited + [w.name]| ==>
              hops[w.name := hops[cur.name] + 1][(visited + [w.name])[i]] <= hops[w.name := hops[cur.name] + 1][(visited + [w.name])[j]]
  {
    forall i | 0 <= i < |visited| ensures hops[visited[i]] <= hops[cur.name] + 1 {
      if i < p {
        assert hops[visited[i]] <= hops[visited[p]];
      }
    }
  }

  /** An edge to a visited label, or to a label no vertex carries, changes
      nothing. */
  lemma SkipStep<T>(vs: seq<Vertex<T>>, start: T, visited: seq<T>, queue: seq<Vertex<T>>,
                    hops: map<T, nat>, walks: map<T, seq<Edge<T>>>, cur: Vertex<T>, p: nat, k: nat)
    requires Inner(vs, start, visited, queue, hops, walks, cur, p, k) && k < |cur.outEdges|
    requires cur.outEdges[k].finish in Labels(vs) ==> cur.outEdges[k].finish in visited
    ensures Inner(vs, start, visited, queue, hops, walks, cur, p, k + 1)
  {
    assert cur.outEdges[..k + 1] == cur.outEdges[..k] + [cur.outEdges[k]];
    if cur.outEdges[k].finish in visited {
      var i :| 0 <= i < |visited| && visited[i] == cur.outEdges[k].finish;
      if i < p {
        assert hops[visited[i]] <= hops[visited[p]];
      }
    }
  }

  /** After the last edge of cur, cur is done. */
  lemma EndStep<T>(vs: seq<Vertex<T>>, start: T, visited: seq<T>, queue: seq<Vertex<T>>,
                   hops: map<T, nat>, walks: map<T, seq<Edge<T>>>, cur: Vertex<T>, p: nat, k: nat)
    requires Inner(vs, start, visited, queue, hops, walks, cur, p, k) && k >= |cur.outEdges|
    ensures Outer(vs, start, visited, queue, hops, walks)
  {
    assert cur.outEdges[..k] == cur.outEdges;
    if |queue| > 0 {
      assert hops[visited[p]] <= hops[visited[p + 1]];
    }
  }

  /** Along a walk from a done label, every vertex label met is visited
      within as many more hops as the walk has edges. */
  lemma {:induction false} HopBound<T>(vs: seq<Vertex<T>>, es: seq<Edge<T>>, a: T, b: T, c: set<T>, hops: map<T, nat>)
    requires a in c && forall x :: x in c ==> x in hops
    requires forall x, e :: x in c && e in OutEdgesOf(vs, x) && e.finish in Labels(vs) ==>
               e.finish in c && hops[e.finish] <= hops[x] + 1
    ensures Walk(vs, es, a, b) && b in Labels(vs) ==> b in c && hops[b] <= hops[a] + |es|
  {
    if es != [] {
      if es[0].finish in Labels(vs) && es[0] in OutEdgesOf(vs, a) {
        HopBound(vs, es[1..], es[0].finish, b, c, hops);
      } else if es[0].finish !in Labels(vs) {
        OutEdgesAbsent(vs, es[0].finish);
        assert Walk(vs, es, a, b) ==> Walk(vs, es[1..], es[0].finish, b);
        assert Walk(vs, es, a, b) ==> es[1..] == [] && b == es[0].finish;
      }
    }
  }

  /** When the queue is empty, visited is the breadth-first order. */
  lemma Exhausted<T(!new)>(vs: seq<Vertex<T>>, start: T, visited: seq<T>, queue: seq<Vertex<T>>,
                           hops: map<T, nat>, walks: map<T, seq<Edge<T>>>)
    requires Outer(vs, start, visited, queue, hops, walks) && |queue| == 0
    ensures Visits(vs, start, visited) && ByHops(vs, start, visited, hops)
  {
    var c := set x | x in visited;
    forall x, e | x in c && e in OutEdgesOf(vs, x) && e.finish in Labels(vs)
      ensures e.finish in c && hops[e.finish] <= hops[x] + 1
    {
      var i :| 0 <= i < |visited| && visited[i] == x;
    }
    forall x | x in Labels(vs) && Reachable(vs, start, x) ensures x in visited {
      var es :| Walk(vs, es, start, x);
      HopBound(vs, es, start, x, c, hops);
    }
    forall i | 0 <= i < |visited| ensures ShortestHops(vs, start, visited[i], hops[visited[i]]) {
      forall es | Walk(vs, es, start, visited[i]) ensures hops[visited[i]] <= |es| {
        HopBound(vs, es, start, visited[i], c, hops);
      }
    }
  }

  // ---------------------------------------------------------------------
  // The operation.

  /** The body of the outer loop for the vertex cur just taken from the
      queue: each outgoing edge, in order, to an unvisited vertex label
      marks it visited and enqueues its vertex. */
  method VisitNeighbours<T(==)>(vs: seq<Vertex<T>>, ghost start: T, cur: Vertex<T>, ghost p: nat,
                                visited0: seq<T>, queue0: seq<Vertex<T>>,
                                ghost hops0: map<T, nat>, ghost walks0: map<T, seq<Edge<T>>>)
    returns (visited: seq<T>, queue: seq<Vertex<T>>, ghost hops: map<T, nat>, ghost walks: map<T, seq<Edge<T>>>)
    requires Inner(vs, start, visited0, queue0, hops0, walks0, cur, p, 0)
    ensures Outer(vs, start, visited, queue, hops, walks)
    ensures |Unvisited(vs, visited)| < |Unvisited(vs, visited0)| || (visited == visited0 && queue == queue0)
  {
    visited, queue, hops, walks := visited0, queue0, hops0, walks0;
    var k := 0;
    while k < |cur.outEdges|
      invariant Inner(vs, start, visited, queue, hops, walks, cur, p, k)
      invariant |Unvisited(vs, visited)| < |Unvisited(vs, visited0)| || (visited == visited0 && queue == queue0)
    {
      var next := FindVertex(vs, cur.outEdges[k].finish);
      if next.Some? && vs[next.value].name !in visited {
        OutEdgesAt(vs, next.value, vs[next.value].name);
        VisitStep(vs, start, visited, queue, hops, walks, cur, p, k, vs[next.value]);
        VisitShrinks(vs, visited, vs[next.value].name);
        visited := visited + [vs[next.value].name];
        queue := queue + [vs[next.value]];
        hops := hops[vs[next.value].name := hops[cur.name] + 1];
        walks := walks[vs[next.value].name := walks[cur.name] + [cur.outEdges[k]]];
      } else {
        SkipStep(vs, start, visited, queue, hops, walks, cur, p, k);
      }
      k := k + 1;
    }
    EndStep(vs, start, visited, queue, hops, walks, cur, p, k);
  }

  /** breadthFirstSearch: nothing for a label no vertex carries; otherwise
      the labels in the order they are enqueued, together with (as a ghost
      result) the hop count of each. */
  method BreadthFirstSearch<T(==,!new)>(vs: seq<Vertex<T>>, start: T) returns (visited: seq<T>, ghost hops: map<T, nat>)
    ensures start !in Labels(vs) ==> visited == []
    ensures start in Labels(vs) ==> Visits(vs, start, visited) && ByHops(vs, start, visited, hops)
  {
    var found := FindVertex(vs, start);
    if found.None? {
      return [], map[];
    }
    OutEdgesAt(vs, found.value, start);
    visited := [start];
    var queue := [vs[found.value]];
    hops := map[start := 0];
    ghost var walks: map<T, seq<Edge<T>>> := map[start := []];
    BfsStarts(vs, start, visited, queue, hops, walks);
    while |queue| > 0
      invariant Outer(vs, start, visited, queue, hops, walks)
      decreases |Unvisited(vs, visited)|, |queue|
    {
      PopStep(vs, start, visited, queue, hops, walks);
      visited, queue, hops, walks := VisitNeighbours(vs, start, queue[0], |visited| - |queue|, visited, queue[1..], hops, walks);
    }
    Exhausted(vs, start, visited, queue, hops, walks);
  }
}
