/**
 The build graph's nodes and typed edges, and the masks by which code chooses which edges to follow.
 */
module BuildGraph {
  import opened Digraph

  // A node id carries its kind, so ids of different kinds never coincide.
  datatype NodeId = File(index: nat) | Command(index: nat) | Condition(index: nat) | Phi(index: nat)

  datatype LinkType = Normal | Sticky | Group | Implicit | OrderOnly

  datatype Edge = Edge(from: NodeId, to: NodeId, link: LinkType)

  type Mask = set<LinkType>

  const DATA_FLOW: Mask := {Normal, Group, Implicit}
  const INPUTS: Mask := {Normal, Group, Implicit, Sticky}
  const ORDER_ONLY: Mask := {OrderOnly}
  const PARSED_CONSUMERS: Mask := {Normal, Group, OrderOnly}

  // `nodes` are the files and commands in slot order; the edges are in the order they were added.
  datatype Graph = Graph(nodes: seq<NodeId>, edges: seq<Edge>)

  // The heads of the masked edges out of `id`, in edge order.
  function Forward(edges: seq<Edge>, id: NodeId, mask: Mask): (r: seq<NodeId>)
    ensures forall v :: v in r <==> exists e :: e in edges && e.from == id && e.to == v && e.link in mask
  {
    if edges == [] then []
    else
      var e := edges[|edges| - 1];
      var rest := Forward(edges[..|edges| - 1], id, mask);
      assert forall x :: x in edges <==> x in edges[..|edges| - 1] || x == e;
      if e.from == id && e.link in mask then rest + [e.to] else rest
  }

  // The tails of the masked edges into `id`, in edge order.
  function Backward(edges: seq<Edge>, id: NodeId, mask: Mask): (r: seq<NodeId>)
    ensures forall u :: u in r <==> exists e :: e in edges && e.to == id && e.from == u && e.link in mask
  {
    if edges == [] then []
    else
      var e := edges[|edges| - 1];
      var rest := Backward(edges[..|edges| - 1], id, mask);
      assert forall x :: x in edges <==> x in edges[..|edges| - 1] || x == e;
      if e.to == id && e.link in mask then rest + [e.from] else rest
  }

  // The relation a set of link types makes of the edges.
  ghost function Relation(edges: seq<Edge>, mask: Mask): Edges<NodeId> {
    set e | e in edges && e.link in mask :: (e.from, e.to)
  }

  lemma ForwardIsRelation(edges: seq<Edge>, id: NodeId, mask: Mask)
    ensures forall v :: v in Forward(edges, id, mask) <==> (id, v) in Relation(edges, mask)
  {
    forall v ensures v in Forward(edges, id, mask) <==> (id, v) in Relation(edges, mask) {
      if v in Forward(edges, id, mask) {
        var e :| e in edges && e.from == id && e.to == v && e.link in mask;
        assert (e.from, e.to) in Relation(edges, mask);
      }
    }
  }
}
