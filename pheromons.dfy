/**
 * The earlier three-channel pheromone field: a fixed configuration, sources
 * that can only be added or removed, the same two-phase diffusion as the
 * current field, and a two-dimensional gradient over the north, south, east,
 * west and back neighbours.
 */
module Pheromons {
  import opened Common
  import opened NavMesh
  import Concentrations
  import Sources

  const DEFAULT: nat := 0
  const FOOD_STORE: nat := 1
  const FOOD_SOURCE: nat := 2
  const N_PH: nat := 3

  /** PheromonsConfig::default: evaporation 0.005, diffusion 0.01/0.4/0.1, both floors 0.001. */
  function DefaultConfig(): (r: Concentrations.Rates)
    ensures r.InUnitRange(N_PH)
    ensures forall i :: 0 <= i < N_PH ==>
              r.evaporationRate[i] == 0.005 && r.diffusionFloor[i] == 0.001 && r.concentrationFloor[i] == 0.001
    ensures r.diffusionRate[DEFAULT] == 0.01 && r.diffusionRate[FOOD_STORE] == 0.4 && r.diffusionRate[FOOD_SOURCE] == 0.1
  {
    Concentrations.Rates(seq(N_PH, _ => 0.005), [0.01, 0.4, 0.1], seq(N_PH, _ => 0.001), seq(N_PH, _ => 0.001))
  }

  /** The source of a node, with the same copy-binding of the array as the current field. */
  class PheromonsSource {
    var concentrations: Option<seq<real>>

    predicate Valid()
      reads this
    {
      Sources.WellSized(concentrations, N_PH)
    }

    constructor ()
      ensures concentrations == None && Valid()
    {
      concentrations := None;
    }

    /** On an existing array only a copy is changed; otherwise the one-hot array is installed. */
    method Add(kind: nat, concentration: real)
      requires Valid() && kind < N_PH
      modifies this
      ensures Valid() && concentrations == Sources.AddSource(N_PH, old(concentrations), kind, concentration)
    {
      if concentrations.Some? {
        var copy := concentrations.value;
        copy := copy[kind := copy[kind] + concentration];
      } else {
        var created := seq(N_PH, _ => 0.0);
        created := created[kind := concentration];
        assert created == Sources.OneHot(N_PH, kind, concentration);
        concentrations := Some(created);
      }
    }

    /** The source is removed only when the lowered copy is all zero. */
    method Sub(kind: nat, concentration: real)
      requires Valid() && kind < N_PH
      modifies this
      ensures Valid() && concentrations == Sources.SubSource(N_PH, old(concentrations), kind, concentration)
    {
      if concentrations.Some? {
        var copy := concentrations.value;
        copy := copy[kind := Max(copy[kind] - concentration, 0.0)];
        if forall j :: 0 <= j < |copy| ==> copy[j] == 0.0 {
          concentrations := None;
        }
      }
    }
  }

  /** apply_sources of this field: a Some source overwrites the node's row. */
  method ApplySources(conc: array2<real>, sources: seq<Option<seq<real>>>)
    requires conc.Length1 == N_PH && |sources| == conc.Length0
    requires forall k :: 0 <= k < |sources| ==> Sources.WellSized(sources[k], N_PH)
    modifies conc
    ensures forall k :: 0 <= k < conc.Length0 ==>
      Sources.Row(conc, k) == Sources.Applied(old(Sources.Row(conc, k)), sources[k])
  {
    Sources.ApplySources(conc, sources);
  }

  /**
   * diffuse_pheromons: for each of the three channels, the scatter pass and
   * then the combine pass of the current field, with this field's rates.
   */
  method DiffusePheromons(graph: seq<NavNode<nat>>, conc: array2<real>, buf: array2<real>, config: Concentrations.Rates)
    requires conc != buf && Concentrations.Closed(graph)
    requires conc.Length0 == |graph| && buf.Length0 == |graph| && conc.Length1 == N_PH && buf.Length1 == N_PH
    requires config.WellFormed(N_PH)
    modifies conc, buf
    ensures forall k, i :: 0 <= k < |graph| && 0 <= i < N_PH ==>
      conc[k, i] == Concentrations.Step(graph, old(Concentrations.Column(conc, i)), old(Concentrations.Column(buf, i)), config, i)[k]
    ensures forall k, i :: 0 <= k < |graph| && 0 <= i < N_PH ==> buf[k, i] == 0.0
  {
    Concentrations.DiffusePheromones(graph, conc, buf, config);
  }

  /** Under the default configuration one step keeps every concentration 0 or above the floor. */
  lemma DefaultStepNonNegative(graph: seq<NavNode<nat>>, col: seq<real>, i: nat)
    requires Concentrations.Closed(graph) && |col| == |graph| && i < N_PH
    requires forall k :: 0 <= k < |graph| ==> col[k] >= 0.0
    ensures var st := Concentrations.Step(graph, col, seq(|graph|, _ => 0.0), DefaultConfig(), i);
      forall k :: 0 <= k < |graph| ==> st[k] >= 0.0 && (st[k] == 0.0 || st[k] > 0.001)
    ensures Concentrations.Sum(Concentrations.Step(graph, col, seq(|graph|, _ => 0.0), DefaultConfig(), i)) <=
            Concentrations.Sum(col)
  {
    Concentrations.StepNonNegative(graph, col, seq(|graph|, _ => 0.0), DefaultConfig(), i);
    Concentrations.StepTotalNonIncreasing(graph, col, DefaultConfig(), i);
  }

  // ---------------------------------------------------------------------
  // Gradient

  /** The five neighbour concentrations a node reads: north, south, east, west and back. */
  datatype Compass = Compass(n: real, s: real, e: real, w: real, b: real)

  /** Every link of a node of a closed graph is a node of the graph. */
  lemma ClosedLinks(graph: seq<NavNode<nat>>, m: nat)
    requires Concentrations.Closed(graph) && m < |graph|
    ensures match graph[m]
      case Background(up, left, down, right) => up < |graph| && left < |graph| && down < |graph| && right < |graph|
      case VerticalEdge(up, _, down, _, back, _) => up < |graph| && down < |graph| && back < |graph|
      case HorizontalEdge(left, _, right, _, back, _) => left < |graph| && right < |graph| && back < |graph|
  {
    var ns := graph[m].Neighbors();
    assert ns[0] < |graph| && ns[1] < |graph| && ns[2] < |graph|;
    if graph[m].Background? {
      assert ns[3] < |graph|;
    }
  }

  /**
   * The neighbour concentrations of node m for one channel: a Background
   * node has no back, a horizontal edge no north or south, a vertical edge no
   * east or west.
   */
  function CompassOf(graph: seq<NavNode<nat>>, col: seq<real>, m: nat): Compass
    requires Concentrations.Closed(graph) && |col| == |graph| && m < |graph|
  {
    ClosedLinks(graph, m);
    match graph[m]
    case Background(up, left, down, right) => Compass(col[up], col[down], col[right], col[left], 0.0)
    case HorizontalEdge(left, _, right, _, back, _) => Compass(0.0, 0.0, col[right], col[left], col[back])
    case VerticalEdge(up, _, down, _, back, _) => Compass(col[up], col[down], 0.0, 0.0, col[back])
  }

  /** n * up + s * down + e * right + w * left, with up = (0, 1), right = (1, 0). */
  function CompassVec(c: Compass): Vec2
  {
    Vec2(c.n * 0.0 + c.s * 0.0 + c.e * 1.0 + c.w * -1.0, c.n * 1.0 + c.s * -1.0 + c.e * 0.0 + c.w * 0.0)
  }

  /** The gradient of this field: back takes part in the peak test but not in the vector. */
  function Gradient(graph: seq<NavNode<nat>>, col: seq<real>, m: nat): Vec2
    requires Concentrations.Closed(graph) && |col| == |graph| && m < |graph|
  {
    var c := CompassOf(graph, col, m);
    if col[m] >= Max(Max(Max(Max(c.n, c.s), c.e), c.w), c.b) then ZERO2 else CompassVec(c)
  }

  /** compute_gradients: the gradient of every node for every channel. */
  method ComputeGradients(graph: seq<NavNode<nat>>, conc: array2<real>, grad: array2<Vec2>)
    requires Concentrations.Closed(graph) && conc.Length0 == |graph| && grad.Length0 == |graph|
    requires conc.Length1 == N_PH && grad.Length1 == N_PH
    modifies grad
    ensures forall m, i :: 0 <= m < |graph| && 0 <= i < N_PH ==>
      grad[m, i] == Gradient(graph, Concentrations.Column(conc, i), m)
  {
    var i := 0;
    while i < N_PH
      invariant 0 <= i <= N_PH
      invariant forall m, j :: 0 <= m < |graph| && 0 <= j < i ==>
        grad[m, j] == Gradient(graph, Concentrations.Column(conc, j), m)
    {
      var m := 0;
      while m < |graph|
        invariant 0 <= m <= |graph|
        invariant forall f, j :: 0 <= f < |graph| && 0 <= j < i ==>
          grad[f, j] == Gradient(graph, Concentrations.Column(conc, j), f)
        invariant forall f :: 0 <= f < m ==> grad[f, i] == Gradient(graph, Concentrations.Column(conc, i), f)
      {
        ClosedLinks(graph, m);
        var n, s, e, w, b;
        match graph[m] {
          case Background(up, left, down, right) =>
            n, s, e, w, b := conc[up, i], conc[down, i], conc[right, i], conc[left, i], 0.0;
          case HorizontalEdge(left, _, right, _, back, _) =>
            n, s, e, w, b := 0.0, 0.0, conc[right, i], conc[left, i], conc[back, i];
          case VerticalEdge(up, _, down, _, back, _) =>
            n, s, e, w, b := conc[up, i], conc[down, i], 0.0, 0.0, conc[back, i];
        }
        assert Compass(n, s, e, w, b) == CompassOf(graph, Concentrations.Column(conc, i), m);
        if conc[m, i] >= Max(Max(Max(Max(n, s), e), w), b) {
          grad[m, i] := ZERO2;
        } else {
          grad[m, i] := CompassVec(Compass(n, s, e, w, b));
        }
        m := m + 1;
      }
      i := i + 1;
    }
  }

  /**
   * The gradient is zero when the node is at least as concentrated as all
   * five neighbours, and (e - w, n - s) otherwise: back never enters the vector.
   */
  lemma GradientRule(graph: seq<NavNode<nat>>, col: seq<real>, m: nat)
    requires Concentrations.Closed(graph) && |col| == |graph| && m < |graph|
    ensures var c := CompassOf(graph, col, m);
      var g := Gradient(graph, col, m);
      (col[m] >= c.n && col[m] >= c.s && col[m] >= c.e && col[m] >= c.w && col[m] >= c.b ==> g == ZERO2) &&
      (col[m] < c.n || col[m] < c.s || col[m] < c.e || col[m] < c.w || col[m] < c.b ==> g == Vec2(c.e - c.w, c.n - c.s))
  {
  }

  /** Horizontal edges get a zero y component and vertical edges a zero x component. */
  lemma EdgeGradientAxes(graph: seq<NavNode<nat>>, col: seq<real>, m: nat)
    requires Concentrations.Closed(graph) && |col| == |graph| && m < |graph|
    ensures graph[m].HorizontalEdge? ==> Gradient(graph, col, m).y == 0.0
    ensures graph[m].VerticalEdge? ==> Gradient(graph, col, m).x == 0.0
  {
    ClosedLinks(graph, m);
  }
}
