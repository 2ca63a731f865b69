/**
 * The navigation node as the gradient and ant-movement code read it. In this
 * revision of NavNode a horizontal edge's left, right and back links are
 * optional, and the neighbour kinds are not consulted.
 */
module NavNodes {
  import opened Common

  datatype Node =
    | Background(up: Entity, left: Entity, down: Entity, right: Entity)
    | VerticalEdge(up: Entity, down: Entity, back: Entity, isLeftSide: bool)
    | HorizontalEdge(maybeLeft: Option<Entity>, maybeRight: Option<Entity>, maybeBack: Option<Entity>, isUpSide: bool)

  /** An optional link is absent or names a node of a graph of the given size. */
  predicate LinkIn(link: Option<Entity>, size: nat)
  {
    link.Some? ==> link.value < size
  }

  /** Every link of the node names a node of a graph of the given size. */
  predicate LinksIn(n: Node, size: nat)
  {
    match n
    case Background(up, left, down, right) => up < size && left < size && down < size && right < size
    case VerticalEdge(up, down, back, _) => up < size && down < size && back < size
    case HorizontalEdge(left, right, back, _) => LinkIn(left, size) && LinkIn(right, size) && LinkIn(back, size)
  }

  /** Every node lookup `nodes.get(link).unwrap()` succeeds: node ids are indices of the graph. */
  predicate Closed(graph: seq<Node>)
  {
    forall m :: 0 <= m < |graph| ==> LinksIn(graph[m], |graph|)
  }
}
