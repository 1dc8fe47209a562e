/** A labelled vertex with its incoming and outgoing edge lists (Vertex.h).
    The lists are changed only by the graph, which replaces the whole vertex
    value. */
module Vertices {
  import opened Edges

  datatype Vertex<T> = Vertex(name: T, inEdges: seq<Edge<T>>, outEdges: seq<Edge<T>>)

  /** The constructor Vertex(n): the given name and no edges yet. */
  function NewVertex<T>(n: T): (v: Vertex<T>)
    ensures v.name == n
    ensures v.inEdges == [] && v.outEdges == []
  {
    Vertex(n, [], [])
  }
}
