/** Dijkstra's shortest path with a lazily pruned frontier (Graph::dijkstraPath
    in Graph.cpp). The algorithm reads only the vertex sequence: from each
    settled label it looks up the vertex and relaxes its outgoing edges. */
module ShortestPaths {
  import opened Sequences
  import opened Edges
  import opened Vertices
  import opened Graphs
  import opened Walks

  /** A tentative distance: unreached (the C++ INF) or a finite value. */
  datatype Dist = Inf | Fin(d: nat)

  /** A frontier entry: a tentative distance and the label it was pushed for. */
  datatype Entry<T> = Entry(d: nat, name: T)

  /** Path<T>: the distance table in vertex order and the path found. */
  datatype Path<T> = Path(distances: seq<int>, path: seq<T>)

  /** The table value of a distance: -1 for unreached. With integer weights
      the truncating cast of the C++ is the identity. */
  function Reported(x: Dist): int
  {
    if x.Inf? then -1 else x.d
  }

  /** alt < dist[neighbour], with INF above every finite value. */
  predicate Improves(alt: nat, x: Dist)
  {
    x.Inf? || alt < x.d
  }

  // ---------------------------------------------------------------------
  // Termination measure: relaxing a vertex either takes it off infinity or
  // lowers its finite distance.

  function Unreached<T>(vs: seq<Vertex<T>>, dist: map<T, Dist>): nat
  {
    if vs == [] then 0
    else (if vs[0].name in dist && dist[vs[0].name].Inf? then 1 else 0) + Unreached(vs[1..], dist)
  }

  function FiniteTotal<T>(vs: seq<Vertex<T>>, dist: map<T, Dist>): nat
  {
    if vs == [] then 0
    else (if vs[0].name in dist && dist[vs[0].name].Fin? then dist[vs[0].name].d else 0) + FiniteTotal(vs[1..], dist)
  }

  lemma {:induction false} ImprovementLowersMeasure<T>(vs: seq<Vertex<T>>, dist: map<T, Dist>, y: T, alt: nat)
    requires y in dist && Improves(alt, dist[y])
    ensures dist[y].Inf? ==> Unreached(vs, dist[y := Fin(alt)]) <= Unreached(vs, dist)
    ensures dist[y].Inf? && y in Labels(vs) ==> Unreached(vs, dist[y := Fin(alt)]) < Unreached(vs, dist)
    ensures dist[y].Fin? ==> Unreached(vs, dist[y := Fin(alt)]) == Unreached(vs, dist)
    ensures dist[y].Fin? ==> FiniteTotal(vs, dist[y := Fin(alt)]) <= FiniteTotal(vs, dist)
    ensures dist[y].Fin? && y in Labels(vs) ==> FiniteTotal(vs, dist[y := Fin(alt)]) < FiniteTotal(vs, dist)
  {
    if vs != [] {
      ImprovementLowersMeasure(vs[1..], dist, y, alt);
      if y in Labels(vs) && vs[0].name != y {
        var v :| v in vs && v.name == y;
        var k :| 0 <= k < |vs| && vs[k] == v;
        assert vs[1..][k - 1] == v;
      }
    }
  }

  /** (u1, t1) is below (u0, t0) in the lexicographic order. */
  predicate LexBelow(u1: nat, t1: nat, u0: nat, t0: nat)
  {
    u1 < u0 || (u1 == u0 && t1 < t0)
  }

  // ---------------------------------------------------------------------
  // The frontier as a multiset with extract-a-minimum.

  predicate IsMinimum<T(==)>(en: Entry<T>, pq: multiset<Entry<T>>)
  {
    en in pq && forall o :: o in pq ==> en.d <= o.d
  }

  lemma MinimumExists<T>(pq: multiset<Entry<T>>)
    requires |pq| > 0
    ensures exists en :: IsMinimum(en, pq)
    decreases |pq|
  {
    var x :| x in pq;
    var rest := pq - multiset{x};
    assert pq == rest + multiset{x};
    if |rest| == 0 {
      assert rest == multiset{};
      assert IsMinimum(x, pq);
    } else {
      MinimumExists(rest);
      var m :| IsMinimum(m, rest);
      if m.d <= x.d {
        assert IsMinimum(m, pq);
      } else {
        assert IsMinimum(x, pq);
      }
    }
  }

  // ---------------------------------------------------------------------
  // The invariants of the search loop.

  /** One finite table entry per vertex label; the start is at distance 0. */
  ghost predicate Domain<T>(vs: seq<Vertex<T>>, s: T, dist: map<T, Dist>)
  {
    dist.Keys == Labels(vs) && s in dist && dist[s] == Fin(0)
  }

  /** Frontier entries never undercut the table (stale ones overstate it),
      and every reached, unsettled label has its current entry. */
  ghost predicate FrontierOK<T>(pq: multiset<Entry<T>>, dist: map<T, Dist>, settled: set<T>)
  {
    && (forall en :: en in pq ==> en.name in dist && dist[en.name].Fin? && dist[en.name].d <= en.d)
    && (forall v :: v in dist && dist[v].Fin? && v !in settled ==> Entry(dist[v].d, v) in pq)
  }

  /** Settled labels are reached; the start is settled first. */
  ghost predicate SettledOK<T>(s: T, dist: map<T, Dist>, settled: set<T>)
  {
    && (forall u :: u in settled ==> u in dist && dist[u].Fin?)
    && (settled == {} ==> forall v :: v in dist && v != s ==> dist[v].Inf?)
    && (settled != {} ==> s in settled)
  }

  /** No settled label is farther than some frontier entry. */
  ghost predicate SettledFirst<T>(pq: multiset<Entry<T>>, dist: map<T, Dist>, settled: set<T>)
  {
    forall u, en :: u in settled && en in pq && u in dist && dist[u].Fin? ==> dist[u].d <= en.d
  }

  /** Every outgoing edge of a settled label has been relaxed. */
  ghost predicate Relaxed<T>(vs: seq<Vertex<T>>, dist: map<T, Dist>, settled: set<T>)
  {
    forall u, e :: u in settled && e in OutEdgesOf(vs, u) && u in dist && dist[u].Fin? && e.finish in dist ==>
      dist[e.finish].Fin? && dist[e.finish].d <= dist[u].d + e.weight
  }

  /** Every reached label other than the start was reached from a settled
      predecessor along a recorded edge, and its distance is that
      predecessor's plus the edge's weight. */
  ghost predicate Witnessed<T>(vs: seq<Vertex<T>>, s: T, dist: map<T, Dist>, prev: map<T, T>,
                               via: map<T, Edge<T>>, settled: set<T>)
  {
    && (forall v :: v in dist && dist[v].Fin? && v != s ==> v in prev)
    && (forall v :: v in prev ==>
          && v in via && v != s && v in dist && dist[v].Fin?
          && prev[v] in settled && prev[v] in dist && dist[prev[v]].Fin?
          && via[v] in OutEdgesOf(vs, prev[v]) && via[v].finish == v
          && dist[v].d == dist[prev[v]].d + via[v].weight)
  }

  /** Settling order: a settled label's predecessor was settled before it. */
  ghost predicate Ordered<T>(prev: map<T, T>, settled: set<T>, order: map<T, nat>, count: nat)
  {
    && order.Keys == settled
    && (forall x :: x in order ==> order[x] < count)
    && (forall v :: v in prev && v in settled && prev[v] in order ==> order[prev[v]] < order[v])
  }

  /** The state after the search loop: either it stopped on the finish, every
      settled label no farther and every other reached label no nearer, or
      the frontier ran dry and every reached label is settled. */
  ghost predicate Finished<T>(f: T, dist: map<T, Dist>, settled: set<T>, done: bool)
  {
    && (done ==>
          && f in dist && dist[f].Fin?
          && (forall x :: x in settled && x in dist && dist[x].Fin? ==> dist[x].d <= dist[f].d)
          && (forall v :: v in dist && dist[v].Fin? && v !in settled ==> dist[f].d <= dist[v].d))
    && (!done ==> forall v :: v in dist && dist[v].Fin? ==> v in settled)
  }

  // ---------------------------------------------------------------------
  // The algorithm.

  /** dist[v] = INF for every vertex, then dist[start] = 0. */
  method InitialDistances<T(==)>(vs: seq<Vertex<T>>, s: T) returns (dist: map<T, Dist>)
    requires s in Labels(vs)
    ensures Domain(vs, s, dist)
    ensures forall v :: v in dist && v != s ==> dist[v] == Inf
  {
    dist := map[];
    var i := 0;
    while i < |vs|
      invariant 0 <= i <= |vs|
      invariant dist.Keys == Labels(vs[..i])
      invariant forall v :: v in dist ==> dist[v] == Inf
    {
      assert Labels(vs[..i + 1]) == Labels(vs[..i]) + {vs[i].name} by {
        assert vs[..i + 1] == vs[..i] + [vs[i]];
      }
      dist := dist[vs[i].name := Inf];
      i := i + 1;
    }
    assert vs[..i] == vs;
    dist := dist[s := Fin(0)];
  }

  /** The invariant of the main loop. */
  ghost predicate SearchInv<T>(vs: seq<Vertex<T>>, s: T, dist: map<T, Dist>, prev: map<T, T>, via: map<T, Edge<T>>,
                               pq: multiset<Entry<T>>, settled: set<T>, order: map<T, nat>, count: nat)
  {
    && Domain(vs, s, dist) && SettledOK(s, dist, settled)
    && FrontierOK(pq, dist, settled) && SettledFirst(pq, dist, settled)
    && Relaxed(vs, dist, settled)
    && Witnessed(vs, s, dist, prev, via, settled)
    && Ordered(prev, settled, order, count)
  }

  /** The main loop: extract a minimum entry, skip it when stale, stop on the
      finish, otherwise relax the outgoing edges of the extracted vertex. */
  method Search<T(==)>(vs: seq<Vertex<T>>, s: T, f: T)
    returns (dist: map<T, Dist>, prev: map<T, T>, ghost via: map<T, Edge<T>>, ghost settled: set<T>,
             ghost order: map<T, nat>, ghost count: nat, done: bool)
    requires s in Labels(vs) && f in Labels(vs)
    ensures Domain(vs, s, dist) && SettledOK(s, dist, settled)
    ensures Relaxed(vs, dist, settled)
    ensures Witnessed(vs, s, dist, prev, via, settled)
    ensures Ordered(prev, settled, order, count)
    ensures Finished(f, dist, settled, done) && (!done ==> s in settled)
  {
    dist := InitialDistances(vs, s);
    prev, via, settled, order, count, done := map[], map[], {}, map[], 0, false;
    var pq: multiset<Entry<T>> := multiset{Entry(0, s)};
    SearchStarts(vs, s, dist);
    while |pq| > 0
      invariant SearchInv(vs, s, dist, prev, via, pq, settled, order, count)
      invariant !done
      decreases Unreached(vs, dist), FiniteTotal(vs, dist), |pq|
    {
      MinimumExists(pq);
      var en :| IsMinimum(en, pq);
      EntryReached(vs, s, dist, prev, via, pq, settled, order, count, en);
      var cur, u := en.d, en.name;
      if cur > dist[u].d {
        // a stale entry: its label was reached more cheaply since
        StaleStep(vs, s, dist, prev, via, pq, settled, order, count, en);
        pq := pq - multiset{en};
        continue;
      }
      if u == f {
        FinishStep(vs, s, f, dist, prev, via, pq, settled, order, count, en);
        done := true;
        break;
      }
      ghost var settled', order', count' := settled + {u}, order, count;
      if u !in settled {
        order', count' := order[u := count], count + 1;
      }
      SettleStep(vs, s, dist, prev, via, pq, settled, order, count, en, settled', order', count');
      settled, order, count := settled', order', count';
      var found := FindVertex(vs, u);
      var outs := if found.Some? then vs[found.value].outEdges else [];
      if found.Some? {
        OutEdgesAt(vs, found.value, u);
      } else {
        OutEdgesAbsent(vs, u);
      }
      ghost var dist0, pq0 := dist, pq - multiset{en};
      dist, prev, via, pq := RelaxAll(vs, s, u, cur, outs, dist, prev, via, pq - multiset{en}, settled, order, count);
      AfterRelax(vs, s, u, cur, outs, dist0, pq0, dist, prev, via, pq, settled, order, count);
    }
    if !done {
      Drained(vs, s, f, dist, prev, via, pq, settled, order, count);
    }
  }

  lemma SearchStarts<T>(vs: seq<Vertex<T>>, s: T, dist: map<T, Dist>)
    requires Domain(vs, s, dist) && forall v :: v in dist && v != s ==> dist[v] == Inf
    ensures SearchInv(vs, s, dist, map[], map[], multiset{Entry(0, s)}, {}, map[], 0)
  {
  }

  /** A frontier entry names a reached label, no nearer than the entry. */
  lemma EntryReached<T>(vs: seq<Vertex<T>>, s: T, dist: map<T, Dist>, prev: map<T, T>, via: map<T, Edge<T>>,
                        pq: multiset<Entry<T>>, settled: set<T>, order: map<T, nat>, count: nat, en: Entry<T>)
    requires SearchInv(vs, s, dist, prev, via, pq, settled, order, count) && en in pq
    ensures en.name in dist && dist[en.name].Fin? && dist[en.name].d <= en.d
  {
  }

  /** Discarding a stale minimum keeps the invariant. */
  lemma StaleStep<T>(vs: seq<Vertex<T>>, s: T, dist: map<T, Dist>, prev: map<T, T>, via: map<T, Edge<T>>,
                     pq: multiset<Entry<T>>, settled: set<T>, order: map<T, nat>, count: nat, en: Entry<T>)
    requires SearchInv(vs, s, dist, prev, via, pq, settled, order, count) && en in pq
    requires en.name in dist && dist[en.name].Fin? && dist[en.name].d < en.d
    ensures SearchInv(vs, s, dist, prev, via, pq - multiset{en}, settled, order, count)
  {
    var pq' := pq - multiset{en};
    forall v | v in dist && dist[v].Fin? && v !in settled ensures Entry(dist[v].d, v) in pq' {
      assert Entry(dist[v].d, v) in pq;
    }
  }

  /** Extracting the finish at its table distance: the search may stop. */
  lemma FinishStep<T>(vs: seq<Vertex<T>>, s: T, f: T, dist: map<T, Dist>, prev: map<T, T>, via: map<T, Edge<T>>,
                      pq: multiset<Entry<T>>, settled: set<T>, order: map<T, nat>, count: nat, en: Entry<T>)
    requires SearchInv(vs, s, dist, prev, via, pq, settled, order, count) && IsMinimum(en, pq)
    requires en.name == f && f in dist && dist[f].Fin? && en.d <= dist[f].d
    ensures Finished(f, dist, settled, true)
  {
    forall v | v in dist && dist[v].Fin? && v !in settled ensures dist[f].d <= dist[v].d {
      assert Entry(dist[v].d, v) in pq;
    }
  }

  /** Settling the extracted minimum u sets up the relaxation loop. */
  lemma SettleStep<T>(vs: seq<Vertex<T>>, s: T, dist: map<T, Dist>, prev: map<T, T>, via: map<T, Edge<T>>,
                      pq: multiset<Entry<T>>, settled: set<T>, order: map<T, nat>, count: nat, en: Entry<T>,
                      settled': set<T>, order': map<T, nat>, count': nat)
    requires SearchInv(vs, s, dist, prev, via, pq, settled, order, count) && IsMinimum(en, pq)
    requires en.name in dist && dist[en.name].Fin? && en.d <= dist[en.name].d
    requires settled' == settled + {en.name}
    requires en.name in settled ==> order' == order && count' == count
    requires en.name !in settled ==> order' == order[en.name := count] && count' == count + 1
    ensures RelaxInv(vs, s, en.name, en.d, OutEdgesOf(vs, en.name), 0, dist, pq - multiset{en},
                     dist, prev, via, pq - multiset{en}, settled', order', count')
  {
    SettleTable(vs, s, dist, prev, via, pq, settled, order, count, en, settled', order', count');
    SettleWitness(vs, s, dist, prev, via, pq, settled, order, count, en, settled', order', count');
    SettleFrontier(vs, s, dist, prev, via, pq, settled, order, count, en, settled', order', count');
  }

  lemma SettleTable<T>(vs: seq<Vertex<T>>, s: T, dist: map<T, Dist>, prev: map<T, T>, via: map<T, Edge<T>>,
                      pq: multiset<Entry<T>>, settled: set<T>, order: map<T, nat>, count: nat, en: Entry<T>,
                      settled': set<T>, order': map<T, nat>, count': nat)
    requires SearchInv(vs, s, dist, prev, via, pq, settled, order, count) && IsMinimum(en, pq)
    requires en.name in dist && dist[en.name].Fin? && en.d <= dist[en.name].d
    requires settled' == settled + {en.name}
    requires en.name in settled ==> order' == order && count' == count
    requires en.name !in settled ==> order' == order[en.name := count] && count' == count + 1
    ensures TableInv(vs, s, en.name, en.d, OutEdgesOf(vs, en.name), 0, dist, dist, settled')
  {
  }

  lemma SettleWitness<T>(vs: seq<Vertex<T>>, s: T, dist: map<T, Dist>, prev: map<T, T>, via: map<T, Edge<T>>,
                      pq: multiset<Entry<T>>, settled: set<T>, order: map<T, nat>, count: nat, en: Entry<T>,
                      settled': set<T>, order': map<T, nat>, count': nat)
    requires SearchInv(vs, s, dist, prev, via, pq, settled, order, count) && IsMinimum(en, pq)
    requires en.name in dist && dist[en.name].Fin? && en.d <= dist[en.name].d
    requires settled' == settled + {en.name}
    requires en.name in settled ==> order' == order && count' == count
    requires en.name !in settled ==> order' == order[en.name := count] && count' == count + 1
    ensures WitnessInv(vs, s, en.name, dist, prev, via, settled', order', count')
  {
    assert Ordered(prev, settled', order', count');
  }

  lemma SettleFrontier<T>(vs: seq<Vertex<T>>, s: T, dist: map<T, Dist>, prev: map<T, T>, via: map<T, Edge<T>>,
                      pq: multiset<Entry<T>>, settled: set<T>, order: map<T, nat>, count: nat, en: Entry<T>,
                      settled': set<T>, order': map<T, nat>, count': nat)
    requires SearchInv(vs, s, dist, prev, via, pq, settled, order, count) && IsMinimum(en, pq)
    requires en.name in dist && dist[en.name].Fin? && en.d <= dist[en.name].d
    requires settled' == settled + {en.name}
    requires en.name in settled ==> order' == order && count' == count
    requires en.name !in settled ==> order' == order[en.name := count] && count' == count + 1
    ensures FrontierInv(vs, en.d, dist, pq - multiset{en}, dist, pq - multiset{en}, settled')
  {
    forall v | v in dist && dist[v].Fin? && v !in settled' ensures Entry(dist[v].d, v) in pq - multiset{en} {
      assert Entry(dist[v].d, v) in pq;
    }
  }

  /** After relaxing u's edges the main invariant holds again, and the
      termination measure went down. */
  lemma AfterRelax<T>(vs: seq<Vertex<T>>, s: T, u: T, cur: nat, outs: seq<Edge<T>>,
                      dist0: map<T, Dist>, pq0: multiset<Entry<T>>,
                      dist: map<T, Dist>, prev: map<T, T>, via: map<T, Edge<T>>, pq: multiset<Entry<T>>,
                      settled: set<T>, order: map<T, nat>, count: nat)
    requires RelaxInv(vs, s, u, cur, outs, |outs|, dist0, pq0, dist, prev, via, pq, settled, order, count)
    requires Relaxed(vs, dist, settled) && SettledFirst(pq, dist, settled)
    ensures SearchInv(vs, s, dist, prev, via, pq, settled, order, count)
    ensures LexBelow(Unreached(vs, dist), FiniteTotal(vs, dist), Unreached(vs, dist0), FiniteTotal(vs, dist0))
            || (dist == dist0 && |pq| == |pq0|)
  {
  }

  /** An empty frontier: every reached label is settled, the start first. */
  lemma Drained<T>(vs: seq<Vertex<T>>, s: T, f: T, dist: map<T, Dist>, prev: map<T, T>, via: map<T, Edge<T>>,
                   pq: multiset<Entry<T>>, settled: set<T>, order: map<T, nat>, count: nat)
    requires SearchInv(vs, s, dist, prev, via, pq, settled, order, count) && |pq| == 0
    ensures Finished(f, dist, settled, false) && s in settled
  {
    assert pq == multiset{};
    forall v | v in dist && dist[v].Fin? ensures v in settled {
      assert Entry(dist[v].d, v) !in pq;
    }
  }

  // One successful relaxation of an edge e out of the settled vertex u, to
  // y = e.finish at the new distance alt = cur + e.weight, keeps every
  // invariant: one lemma per invariant.

  lemma ImprovedIsUnsettled<T>(s: T, cur: nat, y: T, alt: nat, dist: map<T, Dist>, settled: set<T>)
    requires alt >= cur && y in dist && Improves(alt, dist[y])
    requires s in dist && dist[s] == Fin(0)
    requires forall x :: x in settled && x in dist && dist[x].Fin? ==> dist[x].d <= cur
    requires forall x :: x in settled ==> x in dist && dist[x].Fin?
    ensures y !in settled && y != s
  {
  }

  lemma ImprovementKeepsSettled<T>(vs: seq<Vertex<T>>, s: T, u: T, y: T, alt: nat, dist: map<T, Dist>, settled: set<T>)
    requires y in dist && Improves(alt, dist[y]) && y !in settled && y != s && u in settled
    requires Domain(vs, s, dist) && SettledOK(s, dist, settled)
    ensures Domain(vs, s, dist[y := Fin(alt)]) && SettledOK(s, dist[y := Fin(alt)], settled)
    ensures forall x :: x in settled ==> dist[y := Fin(alt)][x] == dist[x]
    ensures forall v :: v in dist && dist[v].Fin? ==> dist[y := Fin(alt)][v].Fin? && dist[y := Fin(alt)][v].d <= dist[v].d
  {
  }

  lemma ImprovementKeepsFrontier<T>(cur: nat, y: T, alt: nat, dist: map<T, Dist>, pq: multiset<Entry<T>>, settled: set<T>)
    requires y in dist && Improves(alt, dist[y]) && alt >= cur
    requires forall en :: en in pq ==> cur <= en.d
    requires FrontierOK(pq, dist, settled)
    ensures forall en :: en in pq + multiset{Entry(alt, y)} ==> cur <= en.d
    ensures FrontierOK(pq + multiset{Entry(alt, y)}, dist[y := Fin(alt)], settled)
  {
    var dist', pq' := dist[y := Fin(alt)], pq + multiset{Entry(alt, y)};
    forall en | en in pq' ensures en.name in dist' && dist'[en.name].Fin? && dist'[en.name].d <= en.d {
      if en != Entry(alt, y) {
        assert en in pq;
      }
    }
  }

  lemma ImprovementKeepsRelaxed<T>(vs: seq<Vertex<T>>, u: T, y: T, alt: nat, dist: map<T, Dist>, settled: set<T>)
    requires y in dist && Improves(alt, dist[y]) && y !in settled
    requires Relaxed(vs, dist, settled - {u})
    ensures Relaxed(vs, dist[y := Fin(alt)], settled - {u})
  {
    var dist' := dist[y := Fin(alt)];
    forall x, g | x in settled - {u} && g in OutEdgesOf(vs, x) && x in dist' && dist'[x].Fin? && g.finish in dist'
      ensures dist'[g.finish].Fin? && dist'[g.finish].d <= dist'[x].d + g.weight
    {
      assert dist'[x] == dist[x];
    }
  }

  lemma ImprovementKeepsWitnessed<T>(vs: seq<Vertex<T>>, s: T, u: T, cur: nat, e: Edge<T>,
                                     dist: map<T, Dist>, prev: map<T, T>, via: map<T, Edge<T>>, settled: set<T>)
    requires e in OutEdgesOf(vs, u) && u in settled && u in dist && dist[u] == Fin(cur)
    requires e.finish in dist && e.finish !in settled && e.finish != s
    requires Witnessed(vs, s, dist, prev, via, settled)
    ensures Witnessed(vs, s, dist[e.finish := Fin(cur + e.weight)], prev[e.finish := u], via[e.finish := e], settled)
  {
  }

  lemma ImprovementKeepsOrdered<T>(u: T, y: T, prev: map<T, T>, settled: set<T>, order: map<T, nat>, count: nat)
    requires y !in settled && Ordered(prev, settled, order, count)
    ensures Ordered(prev[y := u], settled, order, count)
  {
  }

  /** The table part of the relaxation loop's invariant after the first j
      edges of outs: settled entries untouched and no farther than cur, the
      edges relaxed so far relaxed. */
  ghost predicate TableInv<T>(vs: seq<Vertex<T>>, s: T, u: T, cur: nat, outs: seq<Edge<T>>, j: nat,
                              dist0: map<T, Dist>, dist: map<T, Dist>, settled: set<T>)
  {
    && j <= |outs|
    && u in settled
    && Domain(vs, s, dist) && SettledOK(s, dist, settled)
    && (forall x :: x in settled ==> x in dist && x in dist0 && dist[x] == dist0[x])
    && (forall x :: x in settled && x in dist && dist[x].Fin? ==> dist[x].d <= cur)
    && (forall k :: 0 <= k < j && outs[k].finish in dist ==>
          dist[outs[k].finish].Fin? && dist[outs[k].finish].d <= cur + outs[k].weight)
  }

  /** The predecessor part: every other settled vertex stays relaxed. */
  ghost predicate WitnessInv<T>(vs: seq<Vertex<T>>, s: T, u: T, dist: map<T, Dist>, prev: map<T, T>,
                                via: map<T, Edge<T>>, settled: set<T>, order: map<T, nat>, count: nat)
  {
    Relaxed(vs, dist, settled - {u}) && Witnessed(vs, s, dist, prev, via, settled) && Ordered(prev, settled, order, count)
  }

  /** The frontier part: entries no nearer than cur, and each push paid
      for by progress on the termination measure. */
  ghost predicate FrontierInv<T>(vs: seq<Vertex<T>>, cur: nat, dist0: map<T, Dist>, pq0: multiset<Entry<T>>,
                                 dist: map<T, Dist>, pq: multiset<Entry<T>>, settled: set<T>)
  {
    && (forall en :: en in pq ==> cur <= en.d)
    && FrontierOK(pq, dist, settled)
    && |pq| >= |pq0|
    && (|pq| == |pq0| ==> dist == dist0)
    && (|pq| > |pq0| ==> LexBelow(Unreached(vs, dist), FiniteTotal(vs, dist), Unreached(vs, dist0), FiniteTotal(vs, dist0)))
  }

  /** What the relaxation loop keeps after relaxing the first j edges of outs. */
  ghost predicate RelaxInv<T>(vs: seq<Vertex<T>>, s: T, u: T, cur: nat, outs: seq<Edge<T>>, j: nat,
                              dist0: map<T, Dist>, pq0: multiset<Entry<T>>,
                              dist: map<T, Dist>, prev: map<T, T>, via: map<T, Edge<T>>, pq: multiset<Entry<T>>,
                              settled: set<T>, order: map<T, nat>, count: nat)
  {
    && TableInv(vs, s, u, cur, outs, j, dist0, dist, settled)
    && WitnessInv(vs, s, u, dist, prev, via, settled, order, count)
    && FrontierInv(vs, cur, dist0, pq0, dist, pq, settled)
  }

  /** Relaxing edge j when it does not improve keeps the loop invariant. */
  lemma RelaxSkip<T>(vs: seq<Vertex<T>>, s: T, u: T, cur: nat, outs: seq<Edge<T>>, j: nat,
                     dist0: map<T, Dist>, pq0: multiset<Entry<T>>,
                     dist: map<T, Dist>, prev: map<T, T>, via: map<T, Edge<T>>, pq: multiset<Entry<T>>,
                     settled: set<T>, order: map<T, nat>, count: nat)
    requires j < |outs|
    requires outs[j].finish in dist ==> !Improves(cur + outs[j].weight, dist[outs[j].finish])
    requires RelaxInv(vs, s, u, cur, outs, j, dist0, pq0, dist, prev, via, pq, settled, order, count)
    ensures RelaxInv(vs, s, u, cur, outs, j + 1, dist0, pq0, dist, prev, via, pq, settled, order, count)
  {
  }

  /** Relaxing edge j when it improves keeps the loop invariant. */
  lemma RelaxImprove<T>(vs: seq<Vertex<T>>, s: T, u: T, cur: nat, outs: seq<Edge<T>>, j: nat,
                        dist0: map<T, Dist>, pq0: multiset<Entry<T>>,
                        dist: map<T, Dist>, prev: map<T, T>, via: map<T, Edge<T>>, pq: multiset<Entry<T>>,
                        settled: set<T>, order: map<T, nat>, count: nat)
    requires j < |outs| && outs == OutEdgesOf(vs, u) && u in dist && dist[u] == Fin(cur)
    requires outs[j].finish in dist && Improves(cur + outs[j].weight, dist[outs[j].finish])
    requires RelaxInv(vs, s, u, cur, outs, j, dist0, pq0, dist, prev, via, pq, settled, order, count)
    ensures RelaxInv(vs, s, u, cur, outs, j + 1, dist0, pq0,
                     dist[outs[j].finish := Fin(cur + outs[j].weight)], prev[outs[j].finish := u],
                     via[outs[j].finish := outs[j]], pq + multiset{Entry(cur + outs[j].weight, outs[j].finish)},
                     settled, order, count)
  {
    ImproveKeepsTable(vs, s, u, cur, outs, j, dist0, dist, settled);
    ImproveKeepsWitnesses(vs, s, u, cur, outs, j, dist0, dist, prev, via, settled, order, count);
    ImproveKeepsFrontier(vs, s, cur, outs[j].finish, cur + outs[j].weight, dist0, pq0, dist, pq, settled);
  }

  /** The table after an improvement: settled entries untouched, the edges
      relaxed so far (edge j included) still relaxed. */
  lemma ImproveKeepsTable<T>(vs: seq<Vertex<T>>, s: T, u: T, cur: nat, outs: seq<Edge<T>>, j: nat,
                             dist0: map<T, Dist>, dist: map<T, Dist>, settled: set<T>)
    requires j < |outs|
    requires outs[j].finish in dist && Improves(cur + outs[j].weight, dist[outs[j].finish])
    requires TableInv(vs, s, u, cur, outs, j, dist0, dist, settled)
    ensures TableInv(vs, s, u, cur, outs, j + 1, dist0, dist[outs[j].finish := Fin(cur + outs[j].weight)], settled)
  {
    var y, alt := outs[j].finish, cur + outs[j].weight;
    ImprovedIsUnsettled(s, cur, y, alt, dist, settled);
    ImprovementKeepsSettled(vs, s, u, y, alt, dist, settled);
    var dist' := dist[y := Fin(alt)];
    forall k | 0 <= k < j + 1 && outs[k].finish in dist'
      ensures dist'[outs[k].finish].Fin? && dist'[outs[k].finish].d <= cur + outs[k].weight
    {
    }
  }

  /** The predecessor records after an improvement through edge j out of u. */
  lemma ImproveKeepsWitnesses<T>(vs: seq<Vertex<T>>, s: T, u: T, cur: nat, outs: seq<Edge<T>>, j: nat,
                                 dist0: map<T, Dist>, dist: map<T, Dist>, prev: map<T, T>, via: map<T, Edge<T>>,
                                 settled: set<T>, order: map<T, nat>, count: nat)
    requires j < |outs| && outs == OutEdgesOf(vs, u) && u in dist && dist[u] == Fin(cur)
    requires outs[j].finish in dist && Improves(cur + outs[j].weight, dist[outs[j].finish])
    requires TableInv(vs, s, u, cur, outs, j, dist0, dist, settled)
    requires WitnessInv(vs, s, u, dist, prev, via, settled, order, count)
    ensures WitnessInv(vs, s, u, dist[outs[j].finish := Fin(cur + outs[j].weight)], prev[outs[j].finish := u],
                       via[outs[j].finish := outs[j]], settled, order, count)
  {
    ImproveKeepsRelaxedPart(vs, s, u, cur, outs, j, dist0, dist, prev, via, settled, order, count);
    ImproveKeepsWitnessedPart(vs, s, u, cur, outs, j, dist0, dist, prev, via, settled, order, count);
    ImproveKeepsOrderedPart(vs, s, u, cur, outs, j, dist0, dist, prev, via, settled, order, count);
  }

  lemma ImproveKeepsRelaxedPart<T>(vs: seq<Vertex<T>>, s: T, u: T, cur: nat, outs: seq<Edge<T>>, j: nat,
                                 dist0: map<T, Dist>, dist: map<T, Dist>, prev: map<T, T>, via: map<T, Edge<T>>,
                                 settled: set<T>, order: map<T, nat>, count: nat)
    requires j < |outs| && outs == OutEdgesOf(vs, u) && u in dist && dist[u] == Fin(cur)
    requires outs[j].finish in dist && Improves(cur + outs[j].weight, dist[outs[j].finish])
    requires TableInv(vs, s, u, cur, outs, j, dist0, dist, settled)
    requires WitnessInv(vs, s, u, dist, prev, via, settled, order, count)
    ensures Relaxed(vs, dist[outs[j].finish := Fin(cur + outs[j].weight)], settled - {u})
  {
    ImprovedIsUnsettled(s, cur, outs[j].finish, cur + outs[j].weight, dist, settled);
    ImprovementKeepsRelaxed(vs, u, outs[j].finish, cur + outs[j].weight, dist, settled);
  }

  lemma ImproveKeepsWitnessedPart<T>(vs: seq<Vertex<T>>, s: T, u: T, cur: nat, outs: seq<Edge<T>>, j: nat,
                                 dist0: map<T, Dist>, dist: map<T, Dist>, prev: map<T, T>, via: map<T, Edge<T>>,
                                 settled: set<T>, order: map<T, nat>, count: nat)
    requires j < |outs| && outs == OutEdgesOf(vs, u) && u in dist && dist[u] == Fin(cur)
    requires outs[j].finish in dist && Improves(cur + outs[j].weight, dist[outs[j].finish])
    requires TableInv(vs, s, u, cur, outs, j, dist0, dist, settled)
    requires WitnessInv(vs, s, u, dist, prev, via, settled, order, count)
    ensures Witnessed(vs, s, dist[outs[j].finish := Fin(cur + outs[j].weight)], prev[outs[j].finish := u],
                      via[outs[j].finish := outs[j]], settled)
  {
    ImprovedIsUnsettled(s, cur, outs[j].finish, cur + outs[j].weight, dist, settled);
    assert outs[j] in OutEdgesOf(vs, u);
    ImprovementKeepsWitnessed(vs, s, u, cur, outs[j], dist, prev, via, settled);
  }

  lemma ImproveKeepsOrderedPart<T>(vs: seq<Vertex<T>>, s: T, u: T, cur: nat, outs: seq<Edge<T>>, j: nat,
                                 dist0: map<T, Dist>, dist: map<T, Dist>, prev: map<T, T>, via: map<T, Edge<T>>,
                                 settled: set<T>, order: map<T, nat>, count: nat)
    requires j < |outs| && outs == OutEdgesOf(vs, u) && u in dist && dist[u] == Fin(cur)
    requires outs[j].finish in dist && Improves(cur + outs[j].weight, dist[outs[j].finish])
    requires TableInv(vs, s, u, cur, outs, j, dist0, dist, settled)
    requires WitnessInv(vs, s, u, dist, prev, via, settled, order, count)
    ensures Ordered(prev[outs[j].finish := u], settled, order, count)
  {
    ImprovedIsUnsettled(s, cur, outs[j].finish, cur + outs[j].weight, dist, settled);
    ImprovementKeepsOrdered(u, outs[j].finish, prev, settled, order, count);
  }

  /** The frontier after an improvement pushes Entry(alt, y). */
  lemma ImproveKeepsFrontier<T>(vs: seq<Vertex<T>>, s: T, cur: nat, y: T, alt: nat,
                                dist0: map<T, Dist>, pq0: multiset<Entry<T>>,
                                dist: map<T, Dist>, pq: multiset<Entry<T>>, settled: set<T>)
    requires y in dist && Improves(alt, dist[y]) && alt >= cur
    requires Domain(vs, s, dist)
    requires FrontierInv(vs, cur, dist0, pq0, dist, pq, settled)
    ensures FrontierInv(vs, cur, dist0, pq0, dist[y := Fin(alt)], pq + multiset{Entry(alt, y)}, settled)
  {
    ImprovementKeepsFrontier(cur, y, alt, dist, pq, settled);
    assert y in Labels(vs);
    LexStep(vs, dist0, pq0, dist, pq, y, alt);
  }

  /** An improvement makes progress on the termination measure. */
  lemma LexStep<T>(vs: seq<Vertex<T>>, dist0: map<T, Dist>, pq0: multiset<Entry<T>>,
                   dist: map<T, Dist>, pq: multiset<Entry<T>>, y: T, alt: nat)
    requires y in dist && Improves(alt, dist[y]) && y in Labels(vs)
    requires |pq| >= |pq0| && (|pq| == |pq0| ==> dist == dist0)
    requires |pq| > |pq0| ==> LexBelow(Unreached(vs, dist), FiniteTotal(vs, dist), Unreached(vs, dist0), FiniteTotal(vs, dist0))
    ensures LexBelow(Unreached(vs, dist[y := Fin(alt)]), FiniteTotal(vs, dist[y := Fin(alt)]), Unreached(vs, dist0), FiniteTotal(vs, dist0))
  {
    ImprovementLowersMeasure(vs, dist, y, alt);
  }

  /** The relaxation loop over the outgoing edges of the vertex u just
      extracted at distance cur. */
  method RelaxAll<T(==)>(vs: seq<Vertex<T>>, s: T, u: T, cur: nat, outs: seq<Edge<T>>,
                         dist0: map<T, Dist>, prev0: map<T, T>, ghost via0: map<T, Edge<T>>,
                         pq0: multiset<Entry<T>>, ghost settled: set<T>, ghost order: map<T, nat>, ghost count: nat)
    returns (dist: map<T, Dist>, prev: map<T, T>, ghost via: map<T, Edge<T>>, pq: multiset<Entry<T>>)
    requires outs == OutEdgesOf(vs, u) && u in dist0 && dist0[u] == Fin(cur)
    requires RelaxInv(vs, s, u, cur, outs, 0, dist0, pq0, dist0, prev0, via0, pq0, settled, order, count)
    // After all of outs: the table, witness and frontier invariants hold,
    // and every edge of outs ends no farther than cur plus its weight.
    ensures RelaxInv(vs, s, u, cur, outs, |outs|, dist0, pq0, dist, prev, via, pq, settled, order, count) == true
    ensures Relaxed(vs, dist, settled) && SettledFirst(pq, dist, settled)
  {
    dist, prev, via, pq := dist0, prev0, via0, pq0;
    var j := 0;
    while j < |outs|
      invariant j <= |outs|
      invariant RelaxInv(vs, s, u, cur, outs, j, dist0, pq0, dist, prev, via, pq, settled, order, count) == true
      invariant u in dist && dist[u] == Fin(cur)
    {
      dist, prev, via, pq := RelaxEdge(vs, s, u, cur, outs, j, dist0, pq0, dist, prev, via, pq, settled, order, count);
      j := j + 1;
    }
    assert j == |outs|;
    RelaxAllDone(vs, s, u, cur, outs, dist0, pq0, dist, prev, via, pq, settled, order, count);
  }

  /** Relaxing edge j of outs: when the edge's end is a vertex it improves,
      record the new distance, the predecessor and the edge, and push the
      end at its new distance. */
  method RelaxEdge<T(==)>(vs: seq<Vertex<T>>, s: T, u: T, cur: nat, outs: seq<Edge<T>>, j: nat,
                          ghost dist0: map<T, Dist>, ghost pq0: multiset<Entry<T>>,
                          dist: map<T, Dist>, prev: map<T, T>, ghost via: map<T, Edge<T>>, pq: multiset<Entry<T>>,
                          ghost settled: set<T>, ghost order: map<T, nat>, ghost count: nat)
    returns (dist': map<T, Dist>, prev': map<T, T>, ghost via': map<T, Edge<T>>, pq': multiset<Entry<T>>)
    requires j < |outs| && outs == OutEdgesOf(vs, u) && u in dist && dist[u] == Fin(cur)
    requires RelaxInv(vs, s, u, cur, outs, j, dist0, pq0, dist, prev, via, pq, settled, order, count)
    ensures RelaxInv(vs, s, u, cur, outs, j + 1, dist0, pq0, dist', prev', via', pq', settled, order, count)
    ensures u in dist' && dist'[u] == Fin(cur)
  {
    // A neighbour that is no vertex is absent from the table; the C++
    // lookup inserts 0.0 for it, which no alt undercuts.
    if outs[j].finish in dist && Improves(cur + outs[j].weight, dist[outs[j].finish]) {
      RelaxImprove(vs, s, u, cur, outs, j, dist0, pq0, dist, prev, via, pq, settled, order, count);
      dist' := dist[outs[j].finish := Fin(cur + outs[j].weight)];
      prev' := prev[outs[j].finish := u];
      via' := via[outs[j].finish := outs[j]];
      pq' := pq + multiset{Entry(cur + outs[j].weight, outs[j].finish)};
    } else {
      RelaxSkip(vs, s, u, cur, outs, j, dist0, pq0, dist, prev, via, pq, settled, order, count);
      dist', prev', via', pq' := dist, prev, via, pq;
    }
  }

  /** After the loop every outgoing edge of u is relaxed as well. */
  lemma RelaxAllDone<T>(vs: seq<Vertex<T>>, s: T, u: T, cur: nat, outs: seq<Edge<T>>,
                        dist0: map<T, Dist>, pq0: multiset<Entry<T>>,
                        dist: map<T, Dist>, prev: map<T, T>, via: map<T, Edge<T>>, pq: multiset<Entry<T>>,
                        settled: set<T>, order: map<T, nat>, count: nat)
    requires outs == OutEdgesOf(vs, u) && u in dist && dist[u] == Fin(cur)
    requires RelaxInv(vs, s, u, cur, outs, |outs|, dist0, pq0, dist, prev, via, pq, settled, order, count)
    ensures Relaxed(vs, dist, settled) && SettledFirst(pq, dist, settled)
  {
    forall x, g | x in settled && g in OutEdgesOf(vs, x) && x in dist && dist[x].Fin? && g.finish in dist
      ensures dist[g.finish].Fin? && dist[g.finish].d <= dist[x].d + g.weight
    {
      if x == u {
        var k :| 0 <= k < |outs| && outs[k] == g;
      }
    }
  }
}
