/**
 * The earliest two-channel pheromone field: a hard-coded diffusion rate of
 * 0.01, no evaporation, and a gradient whose peak test ignores the back node.
 */
module Pheromon {
  import opened Common
  import opened NavMesh
  import Concentrations
  import Pheromons

  const PH1: nat := 0
  const PH2: nat := 1
  const N_PH: nat := 2

  /** Declared per channel but never read by the diffusion. */
  const PH_DIFFUSION_RATE: seq<real> := [0.0, 0.0]

  /**
   * The constants written into pheromon_diffusion, as rates of the shared
   * diffusion: 1% diffuses, a node scatters only above 0.005, nothing
   * evaporates, and values at or below 0.001 snap to zero.
   */
  function FixedRates(): (r: Concentrations.Rates)
    ensures r.InUnitRange(N_PH)
    ensures forall i :: 0 <= i < N_PH ==>
              r.diffusionRate[i] == 0.01 && r.evaporationRate[i] == 0.0 &&
              r.diffusionFloor[i] == 0.005 && r.concentrationFloor[i] == 0.001
  {
    Concentrations.Rates(seq(N_PH, _ => 0.0), seq(N_PH, _ => 0.01), seq(N_PH, _ => 0.005), seq(N_PH, _ => 0.001))
  }

  /** With these rates the combine step keeps 99% plus what was received, with no evaporation. */
  lemma CombineWithoutEvaporation(c: real, b: real, i: nat)
    requires i < N_PH
    ensures Concentrations.Combine(c, b, FixedRates(), i) == if c * 0.99 + b > 0.001 then c * 0.99 + b else 0.0
    ensures Concentrations.Scatters(c, FixedRates(), i) <==> c * 0.01 > 0.005
  {
    var q := c * (1.0 - 0.01) + b;
    assert q * (1.0 - 0.0) == c * 0.99 + b;
  }

  /** pheromon_diffusion: both channels, scatter then combine, buffers left at zero. */
  method PheromonDiffusion(graph: seq<NavNode<nat>>, conc: array2<real>, buf: array2<real>)
    requires conc != buf && Concentrations.Closed(graph)
    requires conc.Length0 == |graph| && buf.Length0 == |graph| && conc.Length1 == N_PH && buf.Length1 == N_PH
    modifies conc, buf
    ensures forall k, i :: 0 <= k < |graph| && 0 <= i < N_PH ==>
      conc[k, i] == Concentrations.Step(graph, old(Concentrations.Column(conc, i)), old(Concentrations.Column(buf, i)), FixedRates(), i)[k]
    ensures forall k, i :: 0 <= k < |graph| && 0 <= i < N_PH ==> buf[k, i] == 0.0
  {
    Concentrations.DiffusePheromones(graph, conc, buf, FixedRates());
  }

  /** From non-negative values and empty buffers, the channel total never grows. */
  lemma TotalNonIncreasing(graph: seq<NavNode<nat>>, col: seq<real>, i: nat)
    requires Concentrations.Closed(graph) && |col| == |graph| && i < N_PH
    requires forall k :: 0 <= k < |graph| ==> col[k] >= 0.0
    ensures Concentrations.Sum(Concentrations.Step(graph, col, seq(|graph|, _ => 0.0), FixedRates(), i)) <=
            Concentrations.Sum(col)
  {
    Concentrations.StepTotalNonIncreasing(graph, col, FixedRates(), i);
  }

  /** The gradient of this field: the peak test takes north, south, east and west only. */
  function Gradient(graph: seq<NavNode<nat>>, col: seq<real>, m: nat): Vec2
    requires Concentrations.Closed(graph) && |col| == |graph| && m < |graph|
  {
    var c := Pheromons.CompassOf(graph, col, m);
    if col[m] >= Max(Max(Max(c.n, c.s), c.e), c.w) then ZERO2 else Pheromons.CompassVec(c)
  }

  /** update_gradient: the gradient of every node for both channels. */
  method UpdateGradient(graph: seq<NavNode<nat>>, conc: array2<real>, grad: array2<Vec2>)
    requires Concentrations.Closed(graph) && conc.Length0 == |graph| && grad.Length0 == |graph|
    requires conc.Length1 == N_PH && grad.Length1 == N_PH
    modifies grad
    ensures forall m, i :: 0 <= m < |graph| && 0 <= i < N_PH ==>
      grad[m, i] == Gradient(graph, Concentrations.Column(conc, i), m)
  {
    var i := 0;
    while i < N_PH
      invariant 0 <= i <= N_PH
      invariant forall m, j :: 0 <= m < |graph| && 0 <= j < i ==>
        grad[m, j] == Gradient(graph, Concentrations.Column(conc, j), m)
    {
      var m := 0;
      while m < |graph|
        invariant 0 <= m <= |graph|
        invariant forall f, j :: 0 <= f < |graph| && 0 <= j < i ==>
          grad[f, j] == Gradient(graph, Concentrations.Column(conc, j), f)
        invariant forall f :: 0 <= f < m ==> grad[f, i] == Gradient(graph, Concentrations.Column(conc, i), f)
      {
        Pheromons.ClosedLinks(graph, m);
        var n, s, e, w, b;
        match graph[m] {
          case Background(up, left, down, right) =>
            n, s, e, w, b := conc[up, i], conc[down, i], conc[right, i], conc[left, i], 0.0;
          case HorizontalEdge(left, _, right, _, back, _) =>
            n, s, e, w, b := 0.0, 0.0, conc[right, i], conc[left, i], conc[back, i];
          case VerticalEdge(up, _, down, _, back, _) =>
            n, s, e, w, b := conc[up, i], conc[down, i], 0.0, 0.0, conc[back, i];
        }
        assert Pheromons.Compass(n, s, e, w, b) == Pheromons.CompassOf(graph, Concentrations.Column(conc, i), m);
        if conc[m, i] >= Max(Max(Max(n, s), e), w) {
          grad[m, i] := ZERO2;
        } else {
          grad[m, i] := Pheromons.CompassVec(Pheromons.Compass(n, s, e, w, b));
        }
        m := m + 1;
      }
      i := i + 1;
    }
  }

  /**
   * The gradient is zero exactly when the node is at least as concentrated as
   * its north, south, east and west neighbours, whatever its back holds; it is
   * (e - w, n - s) otherwise.
   */
  lemma GradientRule(graph: seq<NavNode<nat>>, col: seq<real>, m: nat)
    requires Concentrations.Closed(graph) && |col| == |graph| && m < |graph|
    ensures var c := Pheromons.CompassOf(graph, col, m);
      var g := Gradient(graph, col, m);
      (col[m] >= c.n && col[m] >= c.s && col[m] >= c.e && col[m] >= c.w ==> g == ZERO2) &&
      (col[m] < c.n || col[m] < c.s || col[m] < c.e || col[m] < c.w ==> g == Vec2(c.e - c.w, c.n - c.s))
  {
  }

  /**
   * Against the later three-channel field: where that gradient is zero this
   * one is too, and where this one is nonzero the two agree. They differ only
   * at a node whose back neighbour alone is more concentrated.
   */
  lemma AgreesWithPheromons(graph: seq<NavNode<nat>>, col: seq<real>, m: nat)
    requires Concentrations.Closed(graph) && |col| == |graph| && m < |graph|
    ensures Pheromons.Gradient(graph, col, m) == ZERO2 ==> Gradient(graph, col, m) == ZERO2
    ensures Gradient(graph, col, m) != ZERO2 ==> Gradient(graph, col, m) == Pheromons.Gradient(graph, col, m)
    ensures Gradient(graph, col, m) != Pheromons.Gradient(graph, col, m) ==>
      var c := Pheromons.CompassOf(graph, col, m);
      col[m] >= c.n && col[m] >= c.s && col[m] >= c.e && col[m] >= c.w && col[m] < c.b
  {
  }
}
