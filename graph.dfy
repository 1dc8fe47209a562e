/** The directed, weighted graph (Graph.h, Graph.cpp): an ordered sequence of
    vertices and an ordered global list of edges, every edge mirrored into its
    start vertex's outgoing list and its finish vertex's incoming list. */
module Graphs {
  import opened Sequences
  import opened Edges
  import opened Vertices

  datatype Option<X> = None | Some(value: X)

  /** The labels of the vertices, in vertex order. */
  function Names<T>(vs: seq<Vertex<T>>): (r: seq<T>)
    ensures |r| == |vs| && forall i :: 0 <= i < |vs| ==> r[i] == vs[i].name
  {
    seq(|vs|, i requires 0 <= i < |vs| => vs[i].name)
  }

  /** The set of labels present. */
  function Labels<T>(vs: seq<Vertex<T>>): set<T>
  {
    set v | v in vs :: v.name
  }

  /** No two vertices share a label. */
  ghost predicate UniqueNames<T>(vs: seq<Vertex<T>>)
  {
    forall i, j :: 0 <= i < j < |vs| ==> vs[i].name != vs[j].name
  }

  /** The vertices that removeVertex(n) keeps. */
  function NotNamed<T(==)>(n: T): Vertex<T> -> bool
  {
    (v: Vertex<T>) => v.name != n
  }

  /** A vertex with every edge naming n dropped from both of its lists. */
  function Detach<T(==)>(v: Vertex<T>, n: T): Vertex<T>
  {
    Vertex(v.name, Filter(v.inEdges, AvoidsVertex(n)), Filter(v.outEdges, AvoidsVertex(n)))
  }

  function DetachAll<T(==)>(vs: seq<Vertex<T>>, n: T): (r: seq<Vertex<T>>)
    ensures |r| == |vs|
  {
    seq(|vs|, i requires 0 <= i < |vs| => Detach(vs[i], n))
  }

  /** The class invariant: labels are unique, every edge joins two present
      vertices, and each vertex's outgoing (incoming) list is exactly the
      global edges that start (finish) at it, in global order. */
  ghost predicate Consistent<T>(vs: seq<Vertex<T>>, es: seq<Edge<T>>)
  {
    && UniqueNames(vs)
    && (forall e :: e in es ==> e.start in Labels(vs) && e.finish in Labels(vs))
    && (forall v :: v in vs ==>
          v.outEdges == Filter(es, StartsAt(v.name)) && v.inEdges == Filter(es, EndsAt(v.name)))
  }

  /** findVertex / findVertexConst: a linear scan for the first vertex with
      the given label. */
  method FindVertex<T(==)>(vs: seq<Vertex<T>>, name: T) returns (r: Option<nat>)
    ensures r.Some? ==> r.value < |vs| && vs[r.value].name == name
    ensures r.Some? ==> forall j :: 0 <= j < r.value ==> vs[j].name != name
    ensures r.None? <==> name !in Labels(vs)
  {
    var i := 0;
    while i < |vs|
      invariant 0 <= i <= |vs|
      invariant forall j :: 0 <= j < i ==> vs[j].name != name
    {
      if vs[i].name == name {
        return Some(i);
      }
      i := i + 1;
    }
    return None;
  }

  lemma {:induction false} FilterKeepsUnique<T>(vs: seq<Vertex<T>>, p: Vertex<T> -> bool)
    requires UniqueNames(vs)
    ensures UniqueNames(Filter(vs, p))
  {
    if vs != [] {
      FilterKeepsUnique(vs[1..], p);
      var rest := Filter(vs[1..], p);
      var h := if p(vs[0]) then [vs[0]] else [];
      assert Filter(vs, p) == h + rest;
      forall k | 0 <= k < |rest|
        ensures rest[k].name != vs[0].name
      {
        assert rest[k] in vs[1..];
      }
    }
  }

  /** The outcome of addEdge: it throws when an endpoint is missing. */
  datatype AddEdgeOutcome = Added | VertexNotFound

  class Graph<T(==)> {
    var vertices: seq<Vertex<T>>
    var edges: seq<Edge<T>>

    ghost predicate Valid()
      reads this
    {
      Consistent(vertices, edges)
    }

    /** The default-constructed graph is empty. */
    constructor ()
      ensures Valid()
      ensures vertices == [] && edges == []
    {
      vertices := [];
      edges := [];
    }

    /** containsVertex: true exactly when some vertex carries the label. */
    method ContainsVertex(name: T) returns (b: bool)
      ensures b <==> name in Labels(vertices)
    {
      var r := FindVertex(vertices, name);
      b := r.Some?;
    }

    /** addVertex: a duplicate label is reported and ignored; otherwise one
        vertex with no edges is appended. */
    method AddVertex(name: T)
      requires Valid()
      modifies this
      ensures Valid()
      ensures edges == old(edges)
      ensures name in old(Labels(vertices)) ==> vertices == old(vertices)
      ensures name !in old(Labels(vertices)) ==> vertices == old(vertices) + [NewVertex(name)]
      ensures Labels(vertices) == old(Labels(vertices)) + {name}
    {
      var present := ContainsVertex(name);
      if present {
        return;
      }
      ghost var vs := vertices;
      vertices := vertices + [NewVertex(name)];
      assert Labels(vertices) == Labels(vs) + {name};
      FilterNone(edges, StartsAt(name));
      FilterNone(edges, EndsAt(name));
    }

    /** addEdge: with a missing endpoint nothing changes (the C++ throws);
        otherwise the edge is appended to the global list, to the start's
        outgoing list and to the finish's incoming list. Parallel edges are
        kept. */
    method AddEdge(s: T, f: T, w: nat) returns (r: AddEdgeOutcome)
      requires Valid()
      modifies this
      ensures Valid()
      ensures r == VertexNotFound <==> s !in old(Labels(vertices)) || f !in old(Labels(vertices))
      ensures r == VertexNotFound ==> vertices == old(vertices) && edges == old(edges)
      ensures r == Added ==> edges == old(edges) + [NewEdge(s, f, w)]
      ensures Names(vertices) == Names(old(vertices)) && Labels(vertices) == old(Labels(vertices))
      ensures r == Added ==> forall i :: 0 <= i < |vertices| && vertices[i].name == s ==>
                vertices[i].outEdges == old(vertices[i].outEdges) + [NewEdge(s, f, w)]
      ensures r == Added ==> forall i :: 0 <= i < |vertices| && vertices[i].name == f ==>
                vertices[i].inEdges == old(vertices[i].inEdges) + [NewEdge(s, f, w)]
    {
      var si := FindVertex(vertices, s);
      var fi := FindVertex(vertices, f);
      if si.None? || fi.None? {
        return VertexNotFound;
      }
      var e := NewEdge(s, f, w);
      var vs, es := vertices, edges + [e];
      var sv := vs[si.value];
      vs := vs[si.value := Vertex(sv.name, sv.inEdges, sv.outEdges + [e])];
      var fv := vs[fi.value];
      vs := vs[fi.value := Vertex(fv.name, fv.inEdges + [e], fv.outEdges)];
      AddEdgeKeepsValid(vertices, edges, e, vs);
      vertices, edges := vs, es;
      r := Added;
    }

    /** removeEdge: every edge from s to f goes, whatever its weight, from the
        global list and from the endpoint lists; all other edges stay in order.
        Nothing matching, or an endpoint missing, is a silent no-op. */
    method RemoveEdge(s: T, f: T)
      requires Valid()
      modifies this
      ensures Valid()
      ensures edges == Filter(old(edges), NotJoining(s, f))
      ensures Names(vertices) == Names(old(vertices))
      ensures forall e :: e in edges ==> !(e.start == s && e.finish == f)
    {
      var vs, es := vertices, Filter(edges, NotJoining(s, f));
      var si := FindVertex(vs, s);
      if si.Some? {
        var sv := vs[si.value];
        vs := vs[si.value := Vertex(sv.name, sv.inEdges, Filter(sv.outEdges, NotJoining(s, f)))];
      }
      var fi := FindVertex(vs, f);
      if fi.Some? {
        var fv := vs[fi.value];
        vs := vs[fi.value := Vertex(fv.name, Filter(fv.inEdges, NotJoining(s, f)), fv.outEdges)];
      }
      RemoveEdgeKeepsValid(vertices, edges, s, f, vs);
      vertices, edges := vs, es;
    }

    /** removeVertex: an absent label is reported and ignored. Otherwise every
        edge naming the label is removed from the global list and from every
        vertex's lists, then the vertex itself is removed; survivors keep their
        order. */
    method RemoveVertex(name: T)
      requires Valid()
      modifies this
      ensures Valid()
      ensures name !in old(Labels(vertices)) ==> vertices == old(vertices) && edges == old(edges)
      ensures name in old(Labels(vertices)) ==>
                && edges == Filter(old(edges), AvoidsVertex(name))
                && vertices == Filter(DetachAll(old(vertices), name), NotNamed(name))
      ensures Labels(vertices) == old(Labels(vertices)) - {name}
      ensures forall e :: e in edges ==> e.start != name && e.finish != name
    {
      var found := FindVertex(vertices, name);
      if found.None? {
        return;
      }
      var vs, es := vertices, Filter(edges, AvoidsVertex(name));
      var i := 0;
      while i < |vs|
        invariant 0 <= i <= |vs| == |vertices|
        invariant forall k :: 0 <= k < i ==> vs[k] == Detach(vertices[k], name)
        invariant forall k :: i <= k < |vs| ==> vs[k] == vertices[k]
      {
        vs := vs[i := Detach(vs[i], name)];
        i := i + 1;
      }
      assert vs == DetachAll(vertices, name);
      vs := Filter(vs, NotNamed(name));
      RemoveVertexKeepsValid(vertices, edges, name);
      vertices, edges := vs, es;
    }
  }

  /** The vertex sequence that addEdge(e) leaves: e appended to its start's
      outgoing list and to its finish's incoming list. */
  ghost predicate AddedEdgeTo<T>(vs: seq<Vertex<T>>, vs': seq<Vertex<T>>, e: Edge<T>)
  {
    && |vs'| == |vs|
    && forall k :: 0 <= k < |vs| ==>
         && vs'[k].name == vs[k].name
         && vs'[k].outEdges == vs[k].outEdges + (if vs[k].name == e.start then [e] else [])
         && vs'[k].inEdges == vs[k].inEdges + (if vs[k].name == e.finish then [e] else [])
  }

  lemma AddEdgeKeepsValid<T>(vs: seq<Vertex<T>>, es: seq<Edge<T>>, e: Edge<T>, vs': seq<Vertex<T>>)
    requires Consistent(vs, es)
    requires e.start in Labels(vs) && e.finish in Labels(vs)
    requires AddedEdgeTo(vs, vs', e)
    ensures Consistent(vs', es + [e])
    ensures Names(vs') == Names(vs) && Labels(vs') == Labels(vs)
  {
    assert Labels(vs') == Labels(vs) by {
      forall x | x in Labels(vs) ensures x in Labels(vs') {
        var v :| v in vs && v.name == x;
        var k :| 0 <= k < |vs| && vs[k] == v;
        assert vs'[k] in vs';
      }
      forall x | x in Labels(vs') ensures x in Labels(vs) {
        var v :| v in vs' && v.name == x;
        var k :| 0 <= k < |vs'| && vs'[k] == v;
        assert vs[k] in vs;
      }
    }
    forall k | 0 <= k < |vs'|
      ensures vs'[k].outEdges == Filter(es + [e], StartsAt(vs'[k].name))
      ensures vs'[k].inEdges == Filter(es + [e], EndsAt(vs'[k].name))
    {
      assert vs[k] in vs;
      FilterSnoc(es, e, StartsAt(vs[k].name));
      FilterSnoc(es, e, EndsAt(vs[k].name));
    }
    forall v | v in vs'
      ensures v.outEdges == Filter(es + [e], StartsAt(v.name)) && v.inEdges == Filter(es + [e], EndsAt(v.name))
    {
      var k :| 0 <= k < |vs'| && vs'[k] == v;
    }
  }

  /** The vertex sequence that removeEdge(s, f) leaves: s's outgoing and f's
      incoming lists filtered, everything else as it was. */
  ghost predicate RemovedEdgeFrom<T>(vs: seq<Vertex<T>>, vs': seq<Vertex<T>>, s: T, f: T)
  {
    && |vs'| == |vs|
    && forall k :: 0 <= k < |vs| ==>
         && vs'[k].name == vs[k].name
         && vs'[k].outEdges == (if vs[k].name == s then Filter(vs[k].outEdges, NotJoining(s, f)) else vs[k].outEdges)
         && vs'[k].inEdges == (if vs[k].name == f then Filter(vs[k].inEdges, NotJoining(s, f)) else vs[k].inEdges)
  }

  lemma RemoveEdgeKeepsValid<T>(vs: seq<Vertex<T>>, es: seq<Edge<T>>, s: T, f: T, vs': seq<Vertex<T>>)
    requires Consistent(vs, es)
    requires RemovedEdgeFrom(vs, vs', s, f)
    ensures Consistent(vs', Filter(es, NotJoining(s, f)))
    ensures Names(vs') == Names(vs)
  {
    var es' := Filter(es, NotJoining(s, f));
    assert Labels(vs') == Labels(vs) by {
      forall x | x in Labels(vs) ensures x in Labels(vs') {
        var v :| v in vs && v.name == x;
        var k :| 0 <= k < |vs| && vs[k] == v;
        assert vs'[k] in vs';
      }
      forall x | x in Labels(vs') ensures x in Labels(vs) {
        var v :| v in vs' && v.name == x;
        var k :| 0 <= k < |vs'| && vs'[k] == v;
        assert vs[k] in vs;
      }
    }
    forall k | 0 <= k < |vs'|
      ensures vs'[k].outEdges == Filter(es', StartsAt(vs'[k].name))
      ensures vs'[k].inEdges == Filter(es', EndsAt(vs'[k].name))
    {
      assert vs[k] in vs;
      var n := vs[k].name;
      FilterCommutes(es, StartsAt(n), NotJoining(s, f));
      FilterCommutes(es, EndsAt(n), NotJoining(s, f));
      if n != s {
        FilterAll(Filter(es, StartsAt(n)), NotJoining(s, f));
      }
      if n != f {
        FilterAll(Filter(es, EndsAt(n)), NotJoining(s, f));
      }
    }
    forall v | v in vs'
      ensures v.outEdges == Filter(es', StartsAt(v.name)) && v.inEdges == Filter(es', EndsAt(v.name))
    {
      var k :| 0 <= k < |vs'| && vs'[k] == v;
    }
  }

  lemma DetachKeepsNames<T>(vs: seq<Vertex<T>>, n: T)
    ensures Names(DetachAll(vs, n)) == Names(vs)
    ensures Labels(DetachAll(vs, n)) == Labels(vs)
    ensures UniqueNames(vs) ==> UniqueNames(DetachAll(vs, n))
  {
    var ds := DetachAll(vs, n);
    forall x | x in Labels(vs) ensures x in Labels(ds) {
      var v :| v in vs && v.name == x;
      var k :| 0 <= k < |vs| && vs[k] == v;
      assert ds[k] in ds;
    }
    forall x | x in Labels(ds) ensures x in Labels(vs) {
      var v :| v in ds && v.name == x;
      var k :| 0 <= k < |ds| && ds[k] == v;
      assert vs[k] in vs;
    }
  }

  lemma LabelsOfFiltered<T>(vs: seq<Vertex<T>>, n: T)
    ensures Labels(Filter(vs, NotNamed(n))) == Labels(vs) - {n}
  {
    var vs' := Filter(vs, NotNamed(n));
    forall x | x in Labels(vs) - {n} ensures x in Labels(vs') {
      var v :| v in vs && v.name == x;
      assert NotNamed(n)(v);
    }
  }

  lemma RemoveVertexKeepsValid<T>(vs: seq<Vertex<T>>, es: seq<Edge<T>>, n: T)
    requires Consistent(vs, es)
    ensures Consistent(Filter(DetachAll(vs, n), NotNamed(n)), Filter(es, AvoidsVertex(n)))
    ensures Labels(Filter(DetachAll(vs, n), NotNamed(n))) == Labels(vs) - {n}
  {
    var ds := DetachAll(vs, n);
    var vs' := Filter(ds, NotNamed(n));
    var es' := Filter(es, AvoidsVertex(n));
    DetachKeepsNames(vs, n);
    FilterKeepsUnique(ds, NotNamed(n));
    LabelsOfFiltered(ds, n);
    forall v | v in vs'
      ensures v.outEdges == Filter(es', StartsAt(v.name)) && v.inEdges == Filter(es', EndsAt(v.name))
    {
      assert v in ds;
      var k :| 0 <= k < |ds| && ds[k] == v;
      assert vs[k] in vs;
      FilterCommutes(es, StartsAt(v.name), AvoidsVertex(n));
      FilterCommutes(es, EndsAt(v.name), AvoidsVertex(n));
    }
  }

  /** The edges selected by an endpoint lying in a set of labels. */
  function EndpointIn<T>(pick: Edge<T> -> T, names: set<T>): Edge<T> -> bool
  {
    (e: Edge<T>) => pick(e) in names
  }

  /** The multiset union, over the vertices, of the edges whose chosen
      endpoint is that vertex. */
  ghost function BagBy<T>(vs: seq<Vertex<T>>, es: seq<Edge<T>>, pick: Edge<T> -> T): multiset<Edge<T>>
  {
    if vs == [] then multiset{}
    else multiset(Filter(es, EndpointIs(pick, vs[0].name))) + BagBy(vs[1..], es, pick)
  }

  /** The multiset union of all outgoing lists, and of all incoming lists. */
  ghost function AllOut<T>(vs: seq<Vertex<T>>): multiset<Edge<T>>
  {
    if vs == [] then multiset{} else multiset(vs[0].outEdges) + AllOut(vs[1..])
  }

  ghost function AllIn<T>(vs: seq<Vertex<T>>): multiset<Edge<T>>
  {
    if vs == [] then multiset{} else multiset(vs[0].inEdges) + AllIn(vs[1..])
  }

  lemma {:induction false} BagByLabels<T>(vs: seq<Vertex<T>>, es: seq<Edge<T>>, pick: Edge<T> -> T)
    requires UniqueNames(vs)
    ensures BagBy(vs, es, pick) == multiset(Filter(es, EndpointIn(pick, Labels(vs))))
  {
    if vs == [] {
      FilterNone(es, EndpointIn(pick, Labels(vs)));
    } else {
      var r := vs[1..];
      BagByLabels(r, es, pick);
      assert Labels(vs) == {vs[0].name} + Labels(r) by {
        assert vs == [vs[0]] + r;
      }
      assert vs[0].name !in Labels(r) by {
        forall v | v in r ensures v.name != vs[0].name {
          var k :| 0 <= k < |r| && r[k] == v;
          assert vs[k + 1] == v;
        }
      }
      FilterSplitCount(es, EndpointIs(pick, vs[0].name), EndpointIn(pick, Labels(r)), EndpointIn(pick, Labels(vs)));
    }
  }

  lemma {:induction false} AllOutIsBag<T>(vs: seq<Vertex<T>>, es: seq<Edge<T>>)
    requires forall v :: v in vs ==> v.outEdges == Filter(es, StartsAt(v.name)) && v.inEdges == Filter(es, EndsAt(v.name))
    ensures AllOut(vs) == BagBy(vs, es, StartOf())
    ensures AllIn(vs) == BagBy(vs, es, FinishOf())
  {
    if vs != [] {
      assert vs[0] in vs;
      AllOutIsBag(vs[1..], es);
    }
  }

  /** The mirroring invariant counted: the global edge list holds, with
      multiplicity, exactly the union of all outgoing lists, and exactly the
      union of all incoming lists. */
  lemma MirrorCounts<T>(vs: seq<Vertex<T>>, es: seq<Edge<T>>)
    requires Consistent(vs, es)
    ensures AllOut(vs) == multiset(es)
    ensures AllIn(vs) == multiset(es)
  {
    AllOutIsBag(vs, es);
    BagByLabels(vs, es, StartOf());
    BagByLabels(vs, es, FinishOf());
    FilterAll(es, EndpointIn(StartOf(), Labels(vs)));
    FilterAll(es, EndpointIn(FinishOf(), Labels(vs)));
  }

  /** Every edge sits in its start vertex's outgoing list and in its finish
      vertex's incoming list. */
  lemma EdgeIsMirrored<T>(vs: seq<Vertex<T>>, es: seq<Edge<T>>, e: Edge<T>)
    requires Consistent(vs, es) && e in es
    ensures exists i :: 0 <= i < |vs| && vs[i].name == e.start && e in vs[i].outEdges
    ensures exists j :: 0 <= j < |vs| && vs[j].name == e.finish && e in vs[j].inEdges
  {
    var v :| v in vs && v.name == e.start;
    var i :| 0 <= i < |vs| && vs[i] == v;
    assert StartsAt(v.name)(e);
    var u :| u in vs && u.name == e.finish;
    var j :| 0 <= j < |vs| && vs[j] == u;
    assert EndsAt(u.name)(e);
  }
}
