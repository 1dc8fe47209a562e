# A verified model of a generic weighted digraph (lab4_sem3)

This project models, in Dafny, the core of a small C++ library: the generic
directed, weighted graph `Graph<T>` (Graph.h, Graph.cpp) with its records
`Vertex<T>` (Vertex.h) and `Edge<T>` (Edge.h).

- **Records.** `Edges.Edge` holds two endpoint labels and a natural-number
  weight. `Vertices.Vertex` holds a label and its incoming and outgoing edge
  lists.
- **The graph.** `Graphs.Graph` is a class with the two fields of the C++
  class, `vertices` and `edges`. Each mutator is a method that updates them in
  place.
- **Class invariant.** `Valid` says three things:
  - labels are unique;
  - every edge joins two present vertices;
  - each vertex's outgoing (incoming) list is exactly the global edges that
    start (finish) there, in global order.

  Every mutator keeps `Valid`. `Graphs.MirrorCounts` then shows that the
  outgoing lists together, and the incoming lists together, hold the global
  list as a multiset.
- **Algorithms.** Dijkstra's shortest path, depth-first search and
  breadth-first search are methods over the vertex sequence. That sequence is
  all the C++ versions read.
  - Each has loops with invariants and a specification stated over walks.
    A walk is a sequence of edges, each leaving the vertex the previous one
    entered, with vertices looked up by label as `findVertex` does.
  - Dijkstra's result table holds achievable distances, and the least one for
    the finish. Its path is the trace of a least-weight walk.
  - The depth-first order equals the recursive function `DepthFirst.Dfs`.
  - Both traversals visit exactly the vertices reachable from the start, each
    once.
  - The breadth-first order is by non-decreasing least hop count.
- **The test scenario.** The module `Scenario` builds the graph of
  `TestDijkstra` (Tests.h) through the class methods. It proves the three
  distances and paths that the test asserts.

## Model

| member | source | states |
|---|---|---|
| Edges.NewEdge | Edge.h:20-23 | the edge stores exactly the given start, finish and weight |
| Edges.DefaultEdge | Edge.h:15-18 | the default edge has weight 0 |
| Edges.RemovalIgnoresWeight | Graph.cpp:105-108 | whether removeEdge(s, f) keeps an edge depends only on its endpoint labels, not its weight |
| Vertices.NewVertex | Vertex.h:20-23 | Vertex(n) has name n and empty in and out lists |
| Graphs.FindVertex | Graph.cpp:11-31 | returns the index of the first vertex with the label, or None exactly when no vertex carries it |
| Graphs.Graph.constructor | Graph.h:19 | the default graph has no vertices and no edges and satisfies the invariant |
| Graphs.Graph.ContainsVertex | Graph.cpp:133-137 | true exactly when some vertex carries the label; the state is unchanged |
| Graphs.Graph.AddVertex | Graph.cpp:35-44 | a duplicate label changes nothing; otherwise exactly one vertex with that label and empty lists is appended; edges are untouched; the invariant (unique labels) is kept |
| Graphs.Graph.AddEdge | Graph.cpp:85-99 | fails (VertexNotFound) exactly when an endpoint is missing, leaving the graph unchanged; otherwise the edge is appended to the global list, to the start's outgoing list and to the finish's incoming list; parallel edges are kept; labels are unchanged; the invariant is kept |
| Graphs.Graph.RemoveEdge | Graph.cpp:101-129 | the global list becomes the old list without the edges from s to f (any weight), order kept; no s-to-f edge remains; labels are unchanged; the invariant is kept, so the endpoint lists are filtered the same way |
| Graphs.Graph.RemoveVertex | Graph.cpp:46-81 | an absent label changes nothing; otherwise every edge naming the label leaves the global list and every vertex's lists, the vertex goes, survivors keep their order, the label set loses exactly that label, and the invariant is kept |
| Graphs.AddEdgeKeepsValid | Graph.cpp:93-98 | appending an edge between present vertices to the global list and to its two endpoint lists keeps the mirroring invariant and the labels |
| Graphs.RemoveEdgeKeepsValid | Graph.cpp:105-128 | filtering the global list and the two endpoint lists by the same (s, f) test keeps the mirroring invariant |
| Graphs.RemoveVertexKeepsValid | Graph.cpp:57-80 | removing the edges naming a label from every list, then the vertex, keeps the mirroring invariant and leaves no edge naming the label |
| Graphs.MirrorCounts | Graph.h:15-16 | under the invariant, the multiset union of all outgoing lists, and that of all incoming lists, equal the multiset of global edges |
| Graphs.EdgeIsMirrored | Graph.cpp:93-98 | under the invariant, each global edge sits in its start vertex's outgoing list and its finish vertex's incoming list |
| Walks.OutEdgesOfConsistent | Graph.cpp:192-196 | under the invariant, the edges the algorithms follow from a label are exactly the global edges that start at it |
| Walks.TraceOfWalk | Graph.cpp:231-239 | a walk's label trace ends at its end point, and each pair of consecutive labels is joined by the walk's edge |
| ShortestPaths.InitialDistances | Graph.cpp:164-166 | every vertex label is mapped to unreached, except the start, which gets 0 |
| ShortestPaths.RelaxAll | Graph.cpp:196-207 | after relaxing all outgoing edges of the extracted vertex, each edge's end is no farther than the current distance plus its weight, and the frontier and witness invariants still hold |
| ShortestPaths.Search | Graph.cpp:180-208 | the loop either stops on the finish (no settled label farther, no other reached label nearer) or drains the frontier with every reached label settled; every outgoing edge of a settled label is relaxed; every reached label has a settled predecessor along a recorded edge whose weights add up |
| Routes.FinishOptimal | Graph.cpp:189-190 | after the search, no walk from the start to the finish weighs less than the finish's distance |
| Routes.DrainedOptimal | Graph.cpp:182-208 | when the frontier ran dry, every label's distance is at most the weight of any walk to it |
| Routes.ReadBack | Graph.cpp:231-239 | following prev from a reached finish to the start yields a walk of exactly the finish's distance; the label list read, reversed, is its trace |
| Routes.ReverseInPlace | Graph.cpp:241-250 | the two-pointer swap loop leaves the array holding its old contents reversed |
| Routes.ReversedPath | Graph.cpp:241-250 | the path handed back is the reverse of the list read from prev |
| Routes.DistanceTable | Graph.cpp:214-222 | one entry per vertex, in vertex order: -1 for unreached, else the distance |
| Routes.AllUnreached | Graph.cpp:147-154 | a table of n entries of -1 |
| Routes.DijkstraPath | Graph.cpp:142-253 | with an endpoint missing, an empty path and -1 for every vertex. Otherwise: one entry per vertex; the start's is 0; every entry is -1 or the weight of some walk from the start; the finish's entry is the least weight of any walk to it; the path is empty exactly when the finish is -1, and otherwise traces a walk of the finish's distance; with no path every entry is the least; from s to s the path is [s] |
| DepthFirst.Dfs | Graph.cpp:280-295 | the pre-order from u extends visited, puts u next, adds only vertex labels, visits no label twice and leaves fewer labels unvisited |
| DepthFirst.DfsReach | Graph.cpp:285-293 | every label the traversal from u adds is reachable from u by a walk |
| DepthFirst.DfsClosed | Graph.cpp:285-293 | every vertex label an outgoing edge of an added label leads to is in the result |
| DepthFirst.DfsVisits | Graph.cpp:259-295 | the traversal from a vertex label visits it first, lists no label twice, and lists exactly the vertex labels reachable from it |
| DepthFirst.DfsUtil | Graph.cpp:280-295 | the recursive loop over v's outgoing edges produces exactly the pre-order Dfs |
| DepthFirst.DepthFirstSearch | Graph.cpp:258-278 | nothing for an absent start; otherwise the pre-order Dfs, which visits exactly the reachable vertex labels, each once, starting with the start |
| BreadthFirst.HopBound | Graph.cpp:316-333 | along any walk from a done label, every vertex label met is visited within as many more hops as the walk has edges |
| BreadthFirst.Exhausted | Graph.cpp:316-333 | with the queue empty, visited lists exactly the reachable vertex labels, each once, with least hop counts that never decrease |
| BreadthFirst.VisitNeighbours | Graph.cpp:318-332 | processing the popped vertex's outgoing edges in order keeps the outer loop's invariant and visits something new or leaves everything as it was |
| BreadthFirst.BreadthFirstSearch | Graph.cpp:299-340 | nothing for an absent start; otherwise the start first, exactly the reachable vertex labels, each once, in non-decreasing order of least hop count from the start |
| Scenario.BuildTestGraph | Tests.h:10-29 | the five addVertex and nine addEdge calls leave a valid graph with labels 0..4 in order and the nine edges in insertion order |
| Scenario.WalkZeroToThree | Tests.h:21-29 | in the test graph, the only walk from 0 to 3 of weight at most 9 is 0 -> 2 -> 1 -> 3 |
| Scenario.WalkZeroToFour | Tests.h:21-29 | in the test graph, the only walk from 0 to 4 of weight at most 5 is 0 -> 2 -> 4 |
| Scenario.WalkZeroToOne | Tests.h:21-29 | in the test graph, the only walk from 0 to 1 of weight at most 7 is 0 -> 2 -> 1 |
| Scenario.ShortestIsUnique | Graph.cpp:142-253 | when one walk is the only one of its weight or less, dijkstraPath reports its weight for the finish and its trace as the path |
| Scenario.TestZeroToThree | Tests.h:31-48 | dijkstraPath(0, 3) reports distance 9 for vertex 3 and the path [0, 2, 1, 3] |
| Scenario.TestZeroToFour | Tests.h:50-66 | dijkstraPath(0, 4) reports distance 5 for vertex 4 and the path [0, 2, 4] |
| Scenario.TestZeroToOne | Tests.h:68-84 | dijkstraPath(0, 1) reports distance 7 for vertex 1 and the path [0, 2, 1] |

## Left out

- Console output is not modelled: the duplicate and missing-vertex messages of addVertex and removeVertex, and the DFS and BFS messages and order printing. DepthFirstSearch and BreadthFirstSearch return the visited sequence instead of printing it.
- Weights are natural numbers, and "unreached" is the `Inf` case of a datatype instead of the floating-point `INF`. Every caller passes integer weights. Negative weights, which the C++ accepts without a check, are out of scope.
- Routes.DistanceTable: reports the exact distance as an unbounded integer. The `static_cast<int>` that fills the table (Graph.cpp:221) is the identity only for distances up to INT_MAX. Above that the C++ cast is undefined, for example on a walk of two edges of weight 2147483647 read by the file loader, and the model reports the exact sum instead.
- The `std::priority_queue` is a multiset of (distance, label) entries. Any minimum entry may be extracted, so which of several equal-weight shortest paths is found is left open, as is the tie order of the heap.
- `std::unordered_map` becomes a Dafny `map`. `prev[current]` inserts a default value through `operator[]`; that insertion is not modelled, because on a reached finish the chain read back is fully defined.
- `dist[neighName]` inserts 0.0 for a label that no vertex carries. No non-negative alternative improves on 0.0, so such an edge is never relaxed, and the model skips it. Under the class invariant no such edge exists.
- `findVertex` and `findVertexConst` are one method, `Graphs.FindVertex`. It returns an index into the vertex sequence instead of a pointer.
- dijkstraPath, depthFirstSearch and breadthFirstSearch are methods over the vertex sequence `g.vertices` instead of class methods. They change nothing, and the class invariant is not needed for their contracts.
- BreadthFirst.BreadthFirstSearch: states hop order and visit-exactly-once, not the exact enqueue order within one hop level. Its hop counts are a ghost result.
- dfsUtil appends to a vector shared by reference. DepthFirst.DfsUtil passes the visited sequence in and returns the extended one, with the same contents.
- The BFS queue holds vertex values instead of pointers into `vertices`. The vertex sequence is not changed during the traversal, so the two are the same.
- Reachability lemmas and traversal results need a label type without allocation (`T(!new)`), so every quantified walk is over values.
- An edge stores only its endpoint labels, not whole copies of the endpoint vertices. Nothing but `.name` of those copies is ever read.
- `Vertex() = default` is not modelled separately. It is NewVertex applied to T's default value, which Dafny types do not supply.
- Path.h and DynamicArray.h are not part of this model. `Path<T>` is the pair (distances, path) of `seq`s.
- main.cpp, with its Qt user interface, drawing code and file loader, is not part of this model.
- The explicit template instantiations for `std::string` and `int` are not modelled. The model is generic in T, and the test scenario uses `int`.
