/** Node identifiers and the fixed, undirected topology the mesh runs on. */
module Graph {

  /** A node id. Ids are strings on the wire; the wrapper keeps them opaque to proofs. */
  datatype NodeId = NodeId(name: string)

  datatype Option<+T> = None | Some(value: T)

  type Edge = (NodeId, NodeId)

  /** A topology: an edge `(a, b)` says that `a` has a live connection to `b`. */
  datatype Topology = Topology(nodes: set<NodeId>, edges: set<Edge>) {

    /** Connections are two-way, join known nodes, and never join a node to itself. */
    ghost predicate Valid() {
      && (forall e :: e in edges ==> e.0 in nodes && e.1 in nodes && e.0 != e.1)
      && (forall e :: e in edges ==> (e.1, e.0) in edges)
      && (forall n :: n in nodes ==> n.name != "")
    }
  }

  /** There is a walk of exactly `length` edges from `a` to `b`. */
  ghost predicate Walk(g: Topology, a: NodeId, b: NodeId, length: nat)
    decreases length
  {
    if length == 0 then a == b
    else exists m :: (a, m) in g.edges && Walk(g, m, b, length - 1)
  }

  /** The hop distance from `a` to `b` is `d`: a walk that long, and none shorter. */
  ghost predicate Distance(g: Topology, a: NodeId, b: NodeId, d: nat) {
    && Walk(g, a, b, d)
    && forall j: nat :: j < d ==> !Walk(g, a, b, j)
  }

  lemma WalkStep(g: Topology, a: NodeId, m: NodeId, b: NodeId, length: nat)
    requires (a, m) in g.edges && Walk(g, m, b, length)
    ensures Walk(g, a, b, length + 1)
  {
  }

  /** No walk beats the distance. */
  lemma DistanceIsLeast(g: Topology, a: NodeId, b: NodeId, d: nat, length: nat)
    requires Distance(g, a, b, d) && Walk(g, a, b, length)
    ensures d <= length
  {
  }

  /** A node is zero hops from itself, and no other distance. */
  lemma BeingThere(g: Topology, a: NodeId, d: nat)
    requires Distance(g, a, a, d)
    ensures d == 0
  {
    assert Walk(g, a, a, 0);
  }

  lemma DistanceZero(g: Topology, a: NodeId, b: NodeId)
    requires Distance(g, a, b, 0)
    ensures a == b
  {
  }

  /** A neighbour on a walk of the distance's length is one hop closer. */
  lemma CloserByOne(g: Topology, a: NodeId, m: NodeId, b: NodeId, d: nat)
    requires d >= 1 && Distance(g, a, b, d) && (a, m) in g.edges && Walk(g, m, b, d - 1)
    ensures Distance(g, m, b, d - 1)
  {
    forall j: nat | j < d - 1
      ensures !Walk(g, m, b, j)
    {
      if Walk(g, m, b, j) {
        WalkStep(g, a, m, b, j);
      }
    }
  }

  /** Every node away from the target has a neighbour one hop closer. */
  lemma SomeNeighbourIsCloser(g: Topology, a: NodeId, b: NodeId, d: nat) returns (m: NodeId)
    requires d >= 1 && Distance(g, a, b, d)
    ensures (a, m) in g.edges && Distance(g, m, b, d - 1)
  {
    m :| (a, m) in g.edges && Walk(g, m, b, d - 1);
    CloserByOne(g, a, m, b, d);
  }

  /** A reachable node has a distance, no longer than any walk to it. */
  lemma {:induction false} DistanceExists(g: Topology, a: NodeId, b: NodeId, length: nat) returns (d: nat)
    requires Walk(g, a, b, length)
    ensures Distance(g, a, b, d) && d <= length
  {
    if j: nat :| j < length && Walk(g, a, b, j) {
      d := DistanceExists(g, a, b, j);
    } else {
      d := length;
    }
  }
}
