/** What Graph::dijkstraPath reports after its search: the distance table in
    vertex order and the path to the finish, read back along the predecessor
    records and reversed in place. */
module Routes {
  import opened Sequences
  import opened Edges
  import opened Vertices
  import opened Graphs
  import opened Walks
  import opened ShortestPaths

  // ---------------------------------------------------------------------
  // What the final table says about walks.

  /** A walk that leaves the settled region first enters it at a label no
      nearer than m; a walk inside it is no shorter than the table says. */
  lemma {:induction false} ExitBound<T>(vs: seq<Vertex<T>>, es: seq<Edge<T>>, a: T, b: T,
                                        dist: map<T, Dist>, settled: set<T>, m: nat)
    requires a in settled && dist.Keys == Labels(vs)
    requires forall x :: x in settled ==> x in dist && dist[x].Fin? && dist[x].d <= m
    requires forall v :: v in dist && dist[v].Fin? && v !in settled ==> m <= dist[v].d
    requires Relaxed(vs, dist, settled)
    ensures Walk(vs, es, a, b) && b in dist && b in settled ==> dist[b].d <= dist[a].d + Weight(es)
    ensures Walk(vs, es, a, b) && b in dist && b !in settled ==> m <= dist[a].d + Weight(es)
    decreases |es|
  {
    if es != [] && Walk(vs, es, a, b) && b in dist {
      var x := es[0].finish;
      assert Walk(vs, es[1..], x, b);
      if es[1..] != [] {
        assert es[1..][0] in OutEdgesOf(vs, x);
        OutEdgesPresent(vs, x);
      }
      assert x in dist;
      if x in settled {
        ExitBound(vs, es[1..], x, b, dist, settled, m);
      }
    }
  }

  /** When every reached label is settled, a walk from a settled label ends
      at a settled label no nearer than the walk is long. */
  lemma {:induction false} ClosedBound<T>(vs: seq<Vertex<T>>, es: seq<Edge<T>>, a: T, b: T,
                                          dist: map<T, Dist>, settled: set<T>)
    requires a in settled && dist.Keys == Labels(vs)
    requires forall x :: x in settled ==> x in dist && dist[x].Fin?
    requires forall v :: v in dist && dist[v].Fin? ==> v in settled
    requires Relaxed(vs, dist, settled)
    ensures Walk(vs, es, a, b) && b in dist ==> b in settled && dist[b].d <= dist[a].d + Weight(es)
    decreases |es|
  {
    if es != [] && Walk(vs, es, a, b) && b in dist {
      var x := es[0].finish;
      assert Walk(vs, es[1..], x, b);
      if es[1..] != [] {
        assert es[1..][0] in OutEdgesOf(vs, x);
        OutEdgesPresent(vs, x);
      }
      assert x in dist;
      ClosedBound(vs, es[1..], x, b, dist, settled);
    }
  }

  /** Following the predecessor records back from a reached label gives a
      walk from the start whose weight is the label's distance. */
  lemma ChainWalk<T>(vs: seq<Vertex<T>>, s: T, dist: map<T, Dist>, prev: map<T, T>, via: map<T, Edge<T>>,
                     settled: set<T>, order: map<T, nat>, count: nat, v: T) returns (es: seq<Edge<T>>)
    requires Domain(vs, s, dist) && Witnessed(vs, s, dist, prev, via, settled) && Ordered(prev, settled, order, count)
    requires v in dist && dist[v].Fin?
    ensures Walk(vs, es, s, v) && Weight(es) == dist[v].d
    decreases if v in order then order[v] else count
  {
    if v == s {
      es := [];
    } else {
      var p := prev[v];
      var pre := ChainWalk(vs, s, dist, prev, via, settled, order, count, p);
      WalkSnoc(vs, pre, s, p, via[v]);
      es := pre + [via[v]];
    }
  }

  /** The facts the search leaves behind. */
  ghost predicate Searched<T>(vs: seq<Vertex<T>>, s: T, f: T, dist: map<T, Dist>, prev: map<T, T>,
                              via: map<T, Edge<T>>, settled: set<T>, order: map<T, nat>, count: nat, done: bool)
  {
    && Domain(vs, s, dist) && SettledOK(s, dist, settled)
    && Relaxed(vs, dist, settled)
    && Witnessed(vs, s, dist, prev, via, settled)
    && Ordered(prev, settled, order, count)
    && Finished(f, dist, settled, done)
    && (!done ==> s in settled)
  }

  /** The finish's distance is no more than the weight of any walk to it. */
  lemma FinishOptimal<T>(vs: seq<Vertex<T>>, s: T, f: T, dist: map<T, Dist>, prev: map<T, T>,
                         via: map<T, Edge<T>>, settled: set<T>, order: map<T, nat>, count: nat, done: bool,
                         es: seq<Edge<T>>)
    requires Searched(vs, s, f, dist, prev, via, settled, order, count, done) && f in dist
    ensures Walk(vs, es, s, f) ==> dist[f].Fin? && dist[f].d <= Weight(es)
  {
    if done {
      if settled == {} {
        assert f == s;
      } else {
        ExitBound(vs, es, s, f, dist, settled, dist[f].d);
      }
    } else if settled != {} {
      ClosedBound(vs, es, s, f, dist, settled);
    }
  }

  /** A search that ran dry leaves every distance exact. */
  lemma DrainedOptimal<T>(vs: seq<Vertex<T>>, s: T, f: T, dist: map<T, Dist>, prev: map<T, T>,
                          via: map<T, Edge<T>>, settled: set<T>, order: map<T, nat>, count: nat,
                          v: T, es: seq<Edge<T>>)
    requires Searched(vs, s, f, dist, prev, via, settled, order, count, false) && v in dist
    ensures Walk(vs, es, s, v) ==> dist[v].Fin? && dist[v].d <= Weight(es)
  {
    ClosedBound(vs, es, s, v, dist, settled);
  }

  // ---------------------------------------------------------------------
  // Building the result.

  /** The distance table, in the order of the vertex sequence. */
  method DistanceTable<T(==)>(vs: seq<Vertex<T>>, dist: map<T, Dist>) returns (table: seq<int>)
    requires forall i :: 0 <= i < |vs| ==> vs[i].name in dist
    ensures |table| == |vs|
    ensures forall i :: 0 <= i < |vs| ==> table[i] == Reported(dist[vs[i].name])
  {
    table := [];
    var i := 0;
    while i < |vs|
      invariant 0 <= i <= |vs| && |table| == i
      invariant forall k :: 0 <= k < i ==> table[k] == Reported(dist[vs[k].name])
    {
      var x := dist[vs[i].name];
      if x.Inf? {
        table := table + [-1];
      } else {
        table := table + [x.d];
      }
      i := i + 1;
    }
  }

  /** The table when an endpoint is missing: -1 for every vertex. */
  method AllUnreached(n: nat) returns (table: seq<int>)
    ensures |table| == n && forall i :: 0 <= i < n ==> table[i] == -1
  {
    table := [];
    while |table| < n
      invariant |table| <= n && forall i :: 0 <= i < |table| ==> table[i] == -1
    {
      table := table + [-1];
    }
  }

  /** Reading the path back from the finish: push the current label, stop at
      the start, otherwise step to the predecessor. The result runs from the
      finish to the start: reversed, it is the trace of a walk along the
      recorded edges whose weight is the finish's distance. */
  method ReadBack<T(==)>(vs: seq<Vertex<T>>, s: T, f: T, dist: map<T, Dist>, prev: map<T, T>,
                         ghost via: map<T, Edge<T>>, ghost settled: set<T>, ghost order: map<T, nat>, ghost count: nat)
    returns (back: seq<T>, ghost es: seq<Edge<T>>)
    requires Domain(vs, s, dist) && Witnessed(vs, s, dist, prev, via, settled) && Ordered(prev, settled, order, count)
    requires f in dist && dist[f].Fin?
    ensures Walk(vs, es, s, f) && Weight(es) == dist[f].d
    ensures Reversed(back) == Trace(s, es)
    ensures |back| >= 1 && back[0] == f && back[|back| - 1] == s
    ensures s == f ==> back == [s]
  {
    var cur := f;
    back, es := [], [];
    while true
      invariant cur in dist && dist[cur].Fin?
      invariant Walk(vs, es, cur, f) && dist[cur].d + Weight(es) == dist[f].d
      invariant Trace(cur, es) == [cur] + Reversed(back)
      invariant back == [] ==> cur == f
      invariant back != [] ==> back[0] == f
      invariant s == f ==> back == []
      decreases if cur in order then order[cur] else count
    {
      ReversedSnoc(back, cur);
      back := back + [cur];
      if cur == s {
        break;
      }
      var e := via[cur];
      assert ([e] + es)[1..] == es;
      es := [e] + es;
      cur := prev[cur];
    }
  }

  /** The two-index swap loop that reverses an array in place. */
  method ReverseInPlace<T>(a: array<T>)
    modifies a
    ensures a[..] == Reversed(old(a[..]))
  {
    ghost var s := a[..];
    var left, right := 0, a.Length - 1;
    while left < right
      invariant 0 <= left && right == a.Length - 1 - left && left <= a.Length - left
      invariant forall k :: 0 <= k < left ==> a[k] == s[a.Length - 1 - k] && a[a.Length - 1 - k] == s[k]
      invariant forall k :: left <= k < a.Length - left ==> a[k] == s[k]
    {
      a[left], a[right] := a[right], a[left];
      left, right := left + 1, right - 1;
    }
    forall k | 0 <= k < a.Length ensures a[k] == Reversed(s)[k] {
      ReversedIndex(s, k);
    }
  }

  /** The path in start-to-finish order: the labels read back, copied into
      an array and reversed there. */
  method ReversedPath<T>(back: seq<T>) returns (path: seq<T>)
    ensures path == Reversed(back)
  {
    var a := new T[|back|](i requires 0 <= i < |back| => back[i]);
    assert a[..] == back;
    ReverseInPlace(a);
    path := a[..];
  }

  // ---------------------------------------------------------------------
  // The whole operation.

  /** table lists the reported distance of every vertex, in vertex order. */
  ghost predicate TableOf<T>(vs: seq<Vertex<T>>, dist: map<T, Dist>, table: seq<int>)
  {
    |table| == |vs| && forall i :: 0 <= i < |vs| ==> vs[i].name in dist && table[i] == Reported(dist[vs[i].name])
  }

  /** Every entry is -1 or a distance some walk from s achieves; s has 0. */
  ghost predicate Achieved<T(!new)>(vs: seq<Vertex<T>>, s: T, table: seq<int>)
    requires |table| == |vs|
  {
    && (forall i :: 0 <= i < |vs| ==> table[i] >= -1)
    && (forall i :: 0 <= i < |vs| && vs[i].name == s ==> table[i] == 0)
    && (forall i :: 0 <= i < |vs| && table[i] >= 0 ==>
          exists es :: Walk(vs, es, s, vs[i].name) && Weight(es) == table[i])
  }

  /** The entries for the label v bound every walk from s to v. */
  ghost predicate Least<T(!new)>(vs: seq<Vertex<T>>, s: T, v: T, table: seq<int>)
    requires |table| == |vs|
  {
    forall i, es :: 0 <= i < |vs| && vs[i].name == v && Walk(vs, es, s, v) ==> 0 <= table[i] <= Weight(es)
  }

  /** Every entry bounds every walk from s to its vertex. */
  ghost predicate AllLeast<T(!new)>(vs: seq<Vertex<T>>, s: T, table: seq<int>)
    requires |table| == |vs|
  {
    forall i, es :: 0 <= i < |vs| && Walk(vs, es, s, vs[i].name) ==> 0 <= table[i] <= Weight(es)
  }

  /** The path is empty exactly when f is reported unreached; otherwise it is
      the trace of a walk from s to f of the reported weight. */
  ghost predicate Traced<T(!new)>(vs: seq<Vertex<T>>, s: T, f: T, r: Path<T>)
    requires |r.distances| == |vs|
  {
    && (r.path == [] <==> forall i :: 0 <= i < |vs| && vs[i].name == f ==> r.distances[i] == -1)
    && (r.path != [] ==>
          exists es :: Walk(vs, es, s, f) && r.path == Trace(s, es) &&
            forall i :: 0 <= i < |vs| && vs[i].name == f ==> r.distances[i] == Weight(es))
  }

  /** What dijkstraPath promises when both endpoints are vertices: the table
      has -1 or a distance that some walk from the start achieves for every
      vertex and 0 for the start; the finish's distance is the least weight
      of a walk to it; the path is empty exactly when the finish is
      unreached, and otherwise traces a walk of that least weight; with no
      path every reported distance is the least; from s to s the path is [s]. */
  ghost predicate Reports<T(!new)>(vs: seq<Vertex<T>>, s: T, f: T, r: Path<T>)
  {
    && |r.distances| == |vs|
    && Achieved(vs, s, r.distances)
    && Least(vs, s, f, r.distances)
    && Traced(vs, s, f, r)
    && (r.path == [] ==> AllLeast(vs, s, r.distances))
    && (s == f ==> r.path == [s])
  }

  /** Shortest path from s to f (Graph::dijkstraPath). */
  method DijkstraPath<T(==,!new)>(vs: seq<Vertex<T>>, s: T, f: T) returns (r: Path<T>)
    ensures |r.distances| == |vs|
    ensures s !in Labels(vs) || f !in Labels(vs) ==>
              r.path == [] && forall i :: 0 <= i < |vs| ==> r.distances[i] == -1
    ensures s in Labels(vs) && f in Labels(vs) ==> Reports(vs, s, f, r)
  {
    var fs := FindVertex(vs, s);
    var ff := FindVertex(vs, f);
    if fs.None? || ff.None? {
      var table := AllUnreached(|vs|);
      return Path(table, []);
    }
    var dist, prev, via, settled, order, count, done := Search(vs, s, f);
    LabelsInTable(vs, s, dist);
    var table := DistanceTable(vs, dist);
    ghost var facts := Searched(vs, s, f, dist, prev, via, settled, order, count, done);
    assert facts;
    if dist[f].Inf? {
      r := Path(table, []);
      ReportsUnreached(vs, s, f, dist, prev, via, settled, order, count, done, r);
      return;
    }
    var back, es := ReadBack(vs, s, f, dist, prev, via, settled, order, count);
    var path := ReversedPath(back);
    r := Path(table, path);
    ReportsFound(vs, s, f, dist, prev, via, settled, order, count, done, r, es);
  }

  lemma LabelsInTable<T>(vs: seq<Vertex<T>>, s: T, dist: map<T, Dist>)
    requires Domain(vs, s, dist)
    ensures forall i :: 0 <= i < |vs| ==> vs[i].name in dist
  {
    forall i | 0 <= i < |vs| ensures vs[i].name in dist {
      assert vs[i] in vs;
    }
  }

  lemma TableAchieved<T(!new)>(vs: seq<Vertex<T>>, s: T, f: T, dist: map<T, Dist>, prev: map<T, T>,
                               via: map<T, Edge<T>>, settled: set<T>, order: map<T, nat>, count: nat, done: bool,
                               table: seq<int>)
    requires Searched(vs, s, f, dist, prev, via, settled, order, count, done) && TableOf(vs, dist, table)
    ensures Achieved(vs, s, table)
  {
    forall i | 0 <= i < |vs| && table[i] >= 0
      ensures exists es :: Walk(vs, es, s, vs[i].name) && Weight(es) == table[i]
    {
      assert dist[vs[i].name].Fin?;
      var es := ChainWalk(vs, s, dist, prev, via, settled, order, count, vs[i].name);
    }
  }

  lemma TableLeast<T(!new)>(vs: seq<Vertex<T>>, s: T, f: T, dist: map<T, Dist>, prev: map<T, T>,
                            via: map<T, Edge<T>>, settled: set<T>, order: map<T, nat>, count: nat, done: bool,
                            table: seq<int>)
    requires Searched(vs, s, f, dist, prev, via, settled, order, count, done) && TableOf(vs, dist, table)
    ensures Least(vs, s, f, table)
  {
    forall i, es | 0 <= i < |vs| && vs[i].name == f && Walk(vs, es, s, f)
      ensures 0 <= table[i] <= Weight(es)
    {
      FinishOptimal(vs, s, f, dist, prev, via, settled, order, count, done, es);
    }
  }

  lemma TableAllLeast<T(!new)>(vs: seq<Vertex<T>>, s: T, f: T, dist: map<T, Dist>, prev: map<T, T>,
                               via: map<T, Edge<T>>, settled: set<T>, order: map<T, nat>, count: nat,
                               table: seq<int>)
    requires Searched(vs, s, f, dist, prev, via, settled, order, count, false) && TableOf(vs, dist, table)
    ensures AllLeast(vs, s, table)
  {
    forall v, es | v in dist && Walk(vs, es, s, v) ensures dist[v].Fin? && dist[v].d <= Weight(es) {
      DrainedOptimal(vs, s, f, dist, prev, via, settled, order, count, v, es);
    }
    LeastEverywhere(vs, s, dist, table);
  }

  lemma LeastEverywhere<T(!new)>(vs: seq<Vertex<T>>, s: T, dist: map<T, Dist>, table: seq<int>)
    requires TableOf(vs, dist, table)
    requires forall v, es :: v in dist && Walk(vs, es, s, v) ==> dist[v].Fin? && dist[v].d <= Weight(es)
    ensures AllLeast(vs, s, table)
  {
  }

  /** The outcome when the finish stays unreached. */
  lemma ReportsUnreached<T(!new)>(vs: seq<Vertex<T>>, s: T, f: T, dist: map<T, Dist>, prev: map<T, T>,
                                  via: map<T, Edge<T>>, settled: set<T>, order: map<T, nat>, count: nat, done: bool,
                                  r: Path<T>)
    requires Searched(vs, s, f, dist, prev, via, settled, order, count, done) && TableOf(vs, dist, r.distances)
    requires f in dist && dist[f].Inf? && r.path == []
    ensures Reports(vs, s, f, r)
  {
    TableAchieved(vs, s, f, dist, prev, via, settled, order, count, done, r.distances);
    TableLeast(vs, s, f, dist, prev, via, settled, order, count, done, r.distances);
    assert !done;
    TableAllLeast(vs, s, f, dist, prev, via, settled, order, count, r.distances);
  }

  /** The outcome when the finish is reached along the walk es. */
  lemma ReportsFound<T(!new)>(vs: seq<Vertex<T>>, s: T, f: T, dist: map<T, Dist>, prev: map<T, T>,
                              via: map<T, Edge<T>>, settled: set<T>, order: map<T, nat>, count: nat, done: bool,
                              r: Path<T>, es: seq<Edge<T>>)
    requires Searched(vs, s, f, dist, prev, via, settled, order, count, done) && TableOf(vs, dist, r.distances)
    requires f in dist && dist[f].Fin?
    requires Walk(vs, es, s, f) && Weight(es) == dist[f].d && r.path == Trace(s, es)
    requires s == f ==> r.path == [s]
    ensures Reports(vs, s, f, r)
  {
    TableAchieved(vs, s, f, dist, prev, via, settled, order, count, done, r.distances);
    TableLeast(vs, s, f, dist, prev, via, settled, order, count, done, r.distances);
  }
}
