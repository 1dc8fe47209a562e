/** A directed, weighted edge (Edge.h). The C++ record keeps whole copies of
    its two endpoint vertices, but only their names are ever read, so an edge
    is modelled by the two endpoint labels and the weight. Being a value, an
    edge is a copy taken when it is made: later changes to the graph cannot
    alter it. Weights are natural numbers (every caller passes integers). */
module Edges {

  datatype Edge<T> = Edge(start: T, finish: T, weight: nat)

  /** The three-argument constructor Edge(s, f, w). */
  function NewEdge<T>(s: T, f: T, w: nat): (e: Edge<T>)
    ensures e.start == s && e.finish == f && e.weight == w
  {
    Edge(s, f, w)
  }

  /** The default constructor: only its weight, 0, is specified; the endpoint
      labels are whatever the caller supplies as default labels. */
  function DefaultEdge<T>(defaultLabel: T): (e: Edge<T>)
    ensures e.weight == 0
    ensures e.start == defaultLabel && e.finish == defaultLabel
  {
    Edge(defaultLabel, defaultLabel, 0)
  }

  /** The label an edge leaves from, and the one it enters. */
  function StartOf<T>(): Edge<T> -> T { (e: Edge<T>) => e.start }
  function FinishOf<T>(): Edge<T> -> T { (e: Edge<T>) => e.finish }

  /** Edge e has `pick(e)` equal to n (pick selects one endpoint). */
  function EndpointIs<T(==)>(pick: Edge<T> -> T, n: T): Edge<T> -> bool
  {
    (e: Edge<T>) => pick(e) == n
  }

  /** The edges that leave n, and the edges that enter n. */
  function StartsAt<T(==)>(n: T): Edge<T> -> bool { EndpointIs(StartOf(), n) }
  function EndsAt<T(==)>(n: T): Edge<T> -> bool { EndpointIs(FinishOf(), n) }

  /** The edges that removeEdge(s, f) keeps: it matches on the endpoint labels
      alone, whatever the weight. */
  function NotJoining<T(==)>(s: T, f: T): Edge<T> -> bool
  {
    (e: Edge<T>) => !(e.start == s && e.finish == f)
  }

  /** The edges that removeVertex(n) keeps: those naming n at neither end. */
  function AvoidsVertex<T(==)>(n: T): Edge<T> -> bool
  {
    (e: Edge<T>) => e.start != n && e.finish != n
  }

  /** Removal of (s, f) ignores the weight: two edges with the same endpoints
      are kept or dropped together. */
  lemma RemovalIgnoresWeight<T>(s: T, f: T, a: Edge<T>, b: Edge<T>)
    requires a.start == b.start && a.finish == b.finish
    ensures NotJoining(s, f)(a) == NotJoining(s, f)(b)
  {
  }
}
