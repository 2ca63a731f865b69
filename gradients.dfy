/**
 * Per-channel pheromone gradients: each node looks at the concentrations of
 * its neighbours, sorted into six directions, and points from low to high
 * unless it is itself at least as concentrated as every direction.
 */
module Gradients {
  import opened Common
  import opened NavNodes
  import Concentrations

  /** The concentration gathered in each of the six directions around a node. */
  datatype GradientComponents = GradientComponents(
    up: real, down: real, left: real, right: real, background: real, foreground: real)
  {
    /** GradientComponents::max: the largest of the six components. */
    function Max(): (m: real)
      ensures m >= up && m >= down && m >= left && m >= right && m >= background && m >= foreground
      ensures m == up || m == down || m == left || m == right || m == background || m == foreground
    {
      Common.Max(Common.Max(Common.Max(Common.Max(Common.Max(up, down), left), right), background), foreground)
    }

    /** GradientComponents::vec: right - left, up - down, foreground - background. */
    function Vec(): Vec3
    {
      Vec3(right - left, up - down, foreground - background)
    }
  }

  const ZERO_COMPONENTS := GradientComponents(0.0, 0.0, 0.0, 0.0, 0.0, 0.0)

  /** A background node's neighbour counts on its own side when it is a Background node. */
  function OnSide(graph: seq<Node>, col: seq<real>, n: Entity): real
    requires n < |graph| == |col|
  {
    if graph[n].Background? then col[n] else 0.0
  }

  /** ... and towards the foreground when it is an edge. */
  function OffSide(graph: seq<Node>, col: seq<real>, n: Entity): real
    requires n < |graph| == |col|
  {
    if graph[n].Background? then 0.0 else col[n]
  }

  /** An absent link contributes nothing. */
  function LinkConcentration(col: seq<real>, link: Option<Entity>): real
    requires LinkIn(link, |col|)
  {
    if link.Some? then col[link.value] else 0.0
  }

  /** The components of node e for one channel, col being that channel's concentrations. */
  function Components(graph: seq<Node>, col: seq<real>, e: Entity): GradientComponents
    requires Closed(graph) && |col| == |graph| && e < |graph|
  {
    assert LinksIn(graph[e], |graph|);
    match graph[e]
    case Background(up, left, down, right) =>
      GradientComponents(
        OnSide(graph, col, up), OnSide(graph, col, down), OnSide(graph, col, left), OnSide(graph, col, right),
        0.0,
        OffSide(graph, col, up) + OffSide(graph, col, down) + OffSide(graph, col, left) + OffSide(graph, col, right))
    case VerticalEdge(up, down, back, _) =>
      GradientComponents(col[up], col[down], 0.0, 0.0, col[back], 0.0)
    case HorizontalEdge(left, right, back, _) =>
      GradientComponents(0.0, 0.0, LinkConcentration(col, left), LinkConcentration(col, right),
                         LinkConcentration(col, back), 0.0)
  }

  /** The gradient of node e for one channel: zero at a local peak, the component vector otherwise. */
  function Gradient(graph: seq<Node>, col: seq<real>, e: Entity): Vec3
    requires Closed(graph) && |col| == |graph| && e < |graph|
  {
    var c := Components(graph, col, e);
    if col[e] >= c.Max() then ZERO3 else c.Vec()
  }

  /**
   * The accumulation of compute_gradients for node e and channel i: start
   * from zero and add each neighbour's concentration to its direction.
   */
  method NodeComponents(graph: seq<Node>, conc: array2<real>, i: nat, e: Entity) returns (c: GradientComponents)
    requires Closed(graph) && conc.Length0 == |graph| && i < conc.Length1 && e < |graph|
    ensures c == Components(graph, Concentrations.Column(conc, i), e)
  {
    assert LinksIn(graph[e], |graph|);
    c := ZERO_COMPONENTS;
    match graph[e]
    case Background(up, left, down, right) =>
      if graph[up].Background? {
        c := c.(up := c.up + conc[up, i]);
      } else {
        c := c.(foreground := c.foreground + conc[up, i]);
      }
      if graph[down].Background? {
        c := c.(down := c.down + conc[down, i]);
      } else {
        c := c.(foreground := c.foreground + conc[down, i]);
      }
      if graph[left].Background? {
        c := c.(left := c.left + conc[left, i]);
      } else {
        c := c.(foreground := c.foreground + conc[left, i]);
      }
      if graph[right].Background? {
        c := c.(right := c.right + conc[right, i]);
      } else {
        c := c.(foreground := c.foreground + conc[right, i]);
      }
    case VerticalEdge(up, down, back, _) =>
      c := c.(up := c.up + conc[up, i]);
      c := c.(down := c.down + conc[down, i]);
      c := c.(background := c.background + conc[back, i]);
    case HorizontalEdge(left, right, back, _) =>
      if left.Some? {
        c := c.(left := c.left + conc[left.value, i]);
      }
      if right.Some? {
        c := c.(right := c.right + conc[right.value, i]);
      }
      if back.Some? {
        c := c.(background := c.background + conc[back.value, i]);
      }
  }

  /**
   * compute_gradients: for every channel and every node, the gradient is
   * zero when the node is at least as concentrated as the largest
   * component, and the component vector otherwise.
   */
  method ComputeGradients(graph: seq<Node>, conc: array2<real>, grad: array2<Vec3>)
    requires Closed(graph) && conc.Length0 == |graph| && grad.Length0 == |graph| && grad.Length1 == conc.Length1
    modifies grad
    ensures forall e, i :: 0 <= e < |graph| && 0 <= i < conc.Length1 ==>
      grad[e, i] == Gradient(graph, Concentrations.Column(conc, i), e)
  {
    var i := 0;
    while i < conc.Length1
      invariant 0 <= i <= conc.Length1
      invariant forall e, j :: 0 <= e < |graph| && 0 <= j < i ==>
        grad[e, j] == Gradient(graph, Concentrations.Column(conc, j), e)
    {
      var e := 0;
      while e < |graph|
        invariant 0 <= e <= |graph|
        invariant forall f, j :: 0 <= f < |graph| && 0 <= j < i ==>
          grad[f, j] == Gradient(graph, Concentrations.Column(conc, j), f)
        invariant forall f :: 0 <= f < e ==> grad[f, i] == Gradient(graph, Concentrations.Column(conc, i), f)
      {
        var c := NodeComponents(graph, conc, i, e);
        if conc[e, i] >= c.Max() {
          grad[e, i] := ZERO3;
        } else {
          grad[e, i] := c.Vec();
        }
        e := e + 1;
      }
      i := i + 1;
    }
  }

  // ---------------------------------------------------------------------
  // Properties of the gradient

  /** A node at least as concentrated as each of its six directions has a zero gradient. */
  lemma PeakHasZeroGradient(graph: seq<Node>, col: seq<real>, e: Entity)
    requires Closed(graph) && |col| == |graph| && e < |graph|
    requires var c := Components(graph, col, e);
      col[e] >= c.up && col[e] >= c.down && col[e] >= c.left && col[e] >= c.right &&
      col[e] >= c.background && col[e] >= c.foreground
    ensures Gradient(graph, col, e) == ZERO3
  {
  }

  /**
   * A nonzero gradient is only found below the peak: some direction is more
   * concentrated than the node, and the gradient is then right - left,
   * up - down, foreground - background.
   */
  lemma NonZeroGradientBelowPeak(graph: seq<Node>, col: seq<real>, e: Entity)
    requires Closed(graph) && |col| == |graph| && e < |graph|
    requires Gradient(graph, col, e) != ZERO3
    ensures var c := Components(graph, col, e);
      (col[e] < c.up || col[e] < c.down || col[e] < c.left || col[e] < c.right ||
       col[e] < c.background || col[e] < c.foreground) &&
      Gradient(graph, col, e) == Vec3(c.right - c.left, c.up - c.down, c.foreground - c.background)
  {
  }

  /**
   * On a Background node, Background neighbours fill up/down/left/right,
   * edge neighbours add to the foreground and the background stays 0, so with
   * non-negative concentrations the gradient never points into the wall.
   */
  lemma BackgroundGradient(graph: seq<Node>, col: seq<real>, e: Entity)
    requires Closed(graph) && |col| == |graph| && e < |graph| && graph[e].Background?
    requires forall k :: 0 <= k < |col| ==> col[k] >= 0.0
    ensures var c := Components(graph, col, e);
      var n := graph[e];
      n.up < |graph| && n.down < |graph| && n.left < |graph| && n.right < |graph| &&
      c.background == 0.0 && c.foreground >= 0.0 &&
      SideRule(graph, col, n.up, c.up, c.foreground) && SideRule(graph, col, n.down, c.down, c.foreground) &&
      SideRule(graph, col, n.left, c.left, c.foreground) && SideRule(graph, col, n.right, c.right, c.foreground)
    ensures Gradient(graph, col, e).z >= 0.0
  {
    assert LinksIn(graph[e], |graph|);
  }

  /**
   * How one neighbour n of a Background node enters its components: on its
   * own side when it is a Background node, and into the foreground (of which
   * it is then at least a part) when it is an edge.
   */
  predicate SideRule(graph: seq<Node>, col: seq<real>, n: Entity, component: real, foreground: real)
    requires n < |graph| == |col|
  {
    (graph[n].Background? ==> component == col[n]) &&
    (!graph[n].Background? ==> component == 0.0 && foreground >= col[n])
  }

  /** A vertical edge has no x component and its z component is minus its back node's concentration. */
  lemma VerticalEdgeGradient(graph: seq<Node>, col: seq<real>, e: Entity)
    requires Closed(graph) && |col| == |graph| && e < |graph| && graph[e].VerticalEdge?
    ensures var g := Gradient(graph, col, e);
      g.x == 0.0 &&
      (g == ZERO3 || (g.y == col[graph[e].up] - col[graph[e].down] && g.z == -col[graph[e].back]))
  {
  }

  /** A horizontal edge has no y component, and its absent links contribute 0. */
  lemma HorizontalEdgeGradient(graph: seq<Node>, col: seq<real>, e: Entity)
    requires Closed(graph) && |col| == |graph| && e < |graph| && graph[e].HorizontalEdge?
    ensures LinksIn(graph[e], |col|)
    ensures var g := Gradient(graph, col, e);
      var n := graph[e];
      g.y == 0.0 &&
      (g == ZERO3 ||
       (g.x == LinkConcentration(col, n.maybeRight) - LinkConcentration(col, n.maybeLeft) &&
        g.z == -LinkConcentration(col, n.maybeBack)))
    ensures forall link :: LinkIn(link, |col|) && link.None? ==> LinkConcentration(col, link) == 0.0
  {
    var n := graph[e];
    assert LinksIn(n, |graph|);
    var c := Components(graph, col, e);
    assert c == GradientComponents(0.0, 0.0, LinkConcentration(col, n.maybeLeft), LinkConcentration(col, n.maybeRight),
                                   LinkConcentration(col, n.maybeBack), 0.0);
  }

  /** An all-zero field has an all-zero gradient. */
  lemma ZeroFieldZeroGradient(graph: seq<Node>, col: seq<real>)
    requires Closed(graph) && |col| == |graph|
    requires forall k :: 0 <= k < |col| ==> col[k] == 0.0
    ensures forall e :: 0 <= e < |graph| ==> Gradient(graph, col, e) == ZERO3
  {
    forall e | 0 <= e < |graph|
      ensures Gradient(graph, col, e) == ZERO3
    {
      assert LinksIn(graph[e], |graph|);
    }
  }
}
