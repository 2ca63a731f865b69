/**
 * Pheromone diffusion over the nav mesh: per channel, every node scatters
 * a share of its concentration into its neighbours' add-buffers, then every
 * node combines what it kept with what it received, evaporates, snaps tiny
 * values to zero and clears its buffer.
 *
 * Node entity m is row m of the `conc` and `buf` arrays (one column per
 * pheromone channel); `graph[m]` is its NavNode.
 */
module Concentrations {
  import opened Common
  import opened NavMesh

  /** The per-channel rates of a pheromone configuration. */
  datatype Rates = Rates(
    evaporationRate: seq<real>,
    diffusionRate: seq<real>,
    diffusionFloor: seq<real>,
    concentrationFloor: seq<real>)
  {
    predicate WellFormed(k: nat)
    {
      |evaporationRate| == k && |diffusionRate| == k && |diffusionFloor| == k && |concentrationFloor| == k
    }

    /** Every rate is a fraction in [0, 1]. */
    predicate InUnitRange(k: nat)
    {
      WellFormed(k) &&
      (forall i :: 0 <= i < k ==> 0.0 <= evaporationRate[i] <= 1.0) &&
      (forall i :: 0 <= i < k ==> 0.0 <= diffusionRate[i] <= 1.0)
    }
  }

  /** Every neighbour of every node is a node (an unknown neighbour is an unwrap panic). */
  predicate Closed(graph: seq<NavNode<nat>>)
  {
    forall m, j :: 0 <= m < |graph| && 0 <= j < |graph[m].Neighbors()| ==> graph[m].Neighbors()[j] < |graph|
  }

  /** Column i of an array of per-node channel values. */
  function Column(a: array2<real>, i: nat): (c: seq<real>)
    requires i < a.Length1
    reads a
    ensures |c| == a.Length0 && forall k :: 0 <= k < a.Length0 ==> c[k] == a[k, i]
  {
    seq(a.Length0, k requires 0 <= k < a.Length0 reads a => a[k, i])
  }

  function Sum(s: seq<real>): real
  {
    if |s| == 0 then 0.0 else Sum(s[..|s| - 1]) + s[|s| - 1]
  }

  /** Adds `share` to the buffer of each target in turn. */
  function Scatter(buf: seq<real>, targets: seq<nat>, share: real): (r: seq<real>)
    requires forall j :: 0 <= j < |targets| ==> targets[j] < |buf|
    ensures |r| == |buf|
  {
    if |targets| == 0 then buf
    else
      var prev := Scatter(buf, targets[..|targets| - 1], share);
      var t := targets[|targets| - 1];
      prev[t := prev[t] + share]
  }

  /** What node m hands to each of its neighbours this pass: c * d / |neighbors|. */
  function Share(graph: seq<NavNode<nat>>, c: real, d: real, m: nat): real
    requires m < |graph|
  {
    c * d / |graph[m].Neighbors()| as real
  }

  predicate Scatters(c: real, rates: Rates, i: nat)
    requires i < |rates.diffusionRate| && i < |rates.diffusionFloor|
  {
    c * rates.diffusionRate[i] > rates.diffusionFloor[i]
  }

  /** The buffer column after the scatter pass over the first m nodes. */
  function Buffers(graph: seq<NavNode<nat>>, col: seq<real>, b0: seq<real>, rates: Rates, i: nat, m: nat)
    : (r: seq<real>)
    requires Closed(graph) && |col| == |graph| && |b0| == |graph| && m <= |graph|
    requires i < |rates.diffusionRate| && i < |rates.diffusionFloor|
    ensures |r| == |graph|
  {
    if m == 0 then b0
    else
      var prev := Buffers(graph, col, b0, rates, i, m - 1);
      if Scatters(col[m - 1], rates, i) then
        Scatter(prev, graph[m - 1].Neighbors(), Share(graph, col[m - 1], rates.diffusionRate[i], m - 1))
      else prev
  }

  /** The combine step for one node: keep, receive, evaporate, snap to zero below the floor. */
  function Combine(c: real, b: real, rates: Rates, i: nat): real
    requires rates.WellFormed(|rates.diffusionRate|) && i < |rates.diffusionRate|
  {
    var q := (c * (1.0 - rates.diffusionRate[i]) + b) * (1.0 - rates.evaporationRate[i]);
    if q > rates.concentrationFloor[i] then q else 0.0
  }

  /** Channel i of every node after one diffusion step, from the values before it. */
  function Step(graph: seq<NavNode<nat>>, col: seq<real>, b0: seq<real>, rates: Rates, i: nat): (r: seq<real>)
    requires Closed(graph) && |col| == |graph| && |b0| == |graph|
    requires rates.WellFormed(|rates.diffusionRate|) && i < |rates.diffusionRate|
    ensures |r| == |graph|
  {
    CombineAll(col, Buffers(graph, col, b0, rates, i, |graph|), rates, i)
  }

  /** The combine pass over a whole column of concentrations and buffers. */
  function CombineAll(col: seq<real>, b: seq<real>, rates: Rates, i: nat): (r: seq<real>)
    requires |b| == |col|
    requires rates.WellFormed(|rates.diffusionRate|) && i < |rates.diffusionRate|
    ensures |r| == |col|
  {
    if |col| == 0 then []
    else
      var n := |col| - 1;
      CombineAll(col[..n], b[..n], rates, i) + [Combine(col[n], b[n], rates, i)]
  }

  /** Node k of the combine pass depends only on node k's concentration and buffer. */
  lemma {:induction false} CombineAllAt(col: seq<real>, b: seq<real>, rates: Rates, i: nat, k: nat)
    requires |b| == |col| && k < |col|
    requires rates.WellFormed(|rates.diffusionRate|) && i < |rates.diffusionRate|
    ensures CombineAll(col, b, rates, i)[k] == Combine(col[k], b[k], rates, i)
  {
    var n := |col| - 1;
    if k < n {
      CombineAllAt(col[..n], b[..n], rates, i, k);
    }
  }

  /** The scatter pass of channel i: the buffers receive the shares of every scattering node. */
  method ScatterPass(graph: seq<NavNode<nat>>, conc: array2<real>, buf: array2<real>, rates: Rates, i: nat)
    requires conc != buf && Closed(graph)
    requires conc.Length0 == |graph| && buf.Length0 == |graph| && buf.Length1 == conc.Length1
    requires rates.WellFormed(conc.Length1) && i < conc.Length1
    modifies buf
    ensures Column(buf, i) == Buffers(graph, Column(conc, i), old(Column(buf, i)), rates, i, |graph|)
    ensures forall k, j :: 0 <= k < |graph| && 0 <= j < buf.Length1 && j != i ==> buf[k, j] == old(buf[k, j])
  {
    ghost var col := Column(conc, i);
    ghost var b0 := Column(buf, i);
    var m := 0;
    while m < |graph|
      invariant 0 <= m <= |graph|
      invariant Column(buf, i) == Buffers(graph, col, b0, rates, i, m)
      invariant forall k, j :: 0 <= k < |graph| && 0 <= j < buf.Length1 && j != i ==> buf[k, j] == old(buf[k, j])
    {
      ScatterNode(graph, conc, buf, rates, i, m, col, b0);
      m := m + 1;
    }
  }

  /** The scatter pass body for node m: above the floor, its share goes to each neighbour in turn. */
  method ScatterNode(graph: seq<NavNode<nat>>, conc: array2<real>, buf: array2<real>, rates: Rates, i: nat, m: nat,
                     ghost col: seq<real>, ghost b0: seq<real>)
    requires conc != buf && Closed(graph) && m < |graph|
    requires conc.Length0 == |graph| && buf.Length0 == |graph| && buf.Length1 == conc.Length1
    requires rates.WellFormed(conc.Length1) && i < conc.Length1
    requires col == Column(conc, i) && |b0| == |graph|
    requires Column(buf, i) == Buffers(graph, col, b0, rates, i, m)
    modifies buf
    ensures Column(buf, i) == Buffers(graph, col, b0, rates, i, m + 1)
    ensures forall k, j :: 0 <= k < |graph| && 0 <= j < buf.Length1 && j != i ==> buf[k, j] == old(buf[k, j])
  {
    assert conc[m, i] == col[m];
    var diffused := conc[m, i] * rates.diffusionRate[i];
    if diffused > rates.diffusionFloor[i] {
      var neighbors := graph[m].Neighbors();
      var diffusedPerNeighbor := diffused / |neighbors| as real;
      assert diffusedPerNeighbor == Share(graph, col[m], rates.diffusionRate[i], m);
      Deposit(buf, neighbors, i, diffusedPerNeighbor);
    }
  }

  /** The combine pass of channel i: keep, receive, evaporate, snap to zero; then clear the buffer. */
  method CombinePass(graph: seq<NavNode<nat>>, conc: array2<real>, buf: array2<real>, rates: Rates, i: nat)
    requires conc != buf
    requires conc.Length0 == |graph| && buf.Length0 == |graph| && buf.Length1 == conc.Length1
    requires rates.WellFormed(conc.Length1) && i < conc.Length1
    modifies conc, buf
    ensures forall k :: 0 <= k < |graph| ==>
      conc[k, i] == Combine(old(conc[k, i]), old(buf[k, i]), rates, i) && buf[k, i] == 0.0
    ensures forall k, j :: 0 <= k < |graph| && 0 <= j < conc.Length1 && j != i ==>
      conc[k, j] == old(conc[k, j]) && buf[k, j] == old(buf[k, j])
  {
    var n := |graph|;
    var k := 0;
    while k < n
      invariant 0 <= k <= n
      invariant forall q :: 0 <= q < k ==> conc[q, i] == Combine(old(conc[q, i]), old(buf[q, i]), rates, i) && buf[q, i] == 0.0
      invariant forall q :: k <= q < n ==> conc[q, i] == old(conc[q, i]) && buf[q, i] == old(buf[q, i])
      invariant forall q, j :: 0 <= q < n && 0 <= j < conc.Length1 && j != i ==>
        conc[q, j] == old(conc[q, j]) && buf[q, j] == old(buf[q, j])
    {
      var newPheromoneQuantity := (conc[k, i] * (1.0 - rates.diffusionRate[i]) + buf[k, i]) *
                                  (1.0 - rates.evaporationRate[i]);
      if newPheromoneQuantity > rates.concentrationFloor[i] {
        conc[k, i] := newPheromoneQuantity;
      } else {
        conc[k, i] := 0.0;
      }
      buf[k, i] := 0.0;
      k := k + 1;
    }
  }

  /** One channel of diffuse_pheromones: the scatter pass, then the combine pass. */
  method DiffuseChannel(graph: seq<NavNode<nat>>, conc: array2<real>, buf: array2<real>, rates: Rates, i: nat)
    requires conc != buf && Closed(graph)
    requires conc.Length0 == |graph| && buf.Length0 == |graph| && buf.Length1 == conc.Length1
    requires rates.WellFormed(conc.Length1) && i < conc.Length1
    modifies conc, buf
    ensures forall k :: 0 <= k < |graph| ==>
      conc[k, i] == Step(graph, old(Column(conc, i)), old(Column(buf, i)), rates, i)[k]
    ensures forall k :: 0 <= k < |graph| ==> buf[k, i] == 0.0
    ensures forall k, j :: 0 <= k < |graph| && 0 <= j < conc.Length1 && j != i ==>
      conc[k, j] == old(conc[k, j]) && buf[k, j] == old(buf[k, j])
  {
    ghost var col := Column(conc, i);
    ghost var b0 := Column(buf, i);
    ScatterPass(graph, conc, buf, rates, i);
    ghost var b := Buffers(graph, col, b0, rates, i, |graph|);
    CombinePass(graph, conc, buf, rates, i);
    forall k | 0 <= k < |graph|
      ensures conc[k, i] == Step(graph, col, b0, rates, i)[k]
    {
      CombineAllAt(col, b, rates, i, k);
    }
  }

  /** diffuse_pheromones: every channel in turn, each from its own values before the step. */
  method DiffusePheromones(graph: seq<NavNode<nat>>, conc: array2<real>, buf: array2<real>, rates: Rates)
    requires conc != buf && Closed(graph)
    requires conc.Length0 == |graph| && buf.Length0 == |graph| && buf.Length1 == conc.Length1
    requires rates.WellFormed(conc.Length1)
    modifies conc, buf
    ensures forall k, i :: 0 <= k < |graph| && 0 <= i < conc.Length1 ==>
      conc[k, i] == Step(graph, old(Column(conc, i)), old(Column(buf, i)), rates, i)[k]
    ensures forall k, i :: 0 <= k < |graph| && 0 <= i < conc.Length1 ==> buf[k, i] == 0.0
  {
    var i := 0;
    while i < conc.Length1
      invariant 0 <= i <= conc.Length1
      invariant forall k, j :: 0 <= k < |graph| && 0 <= j < i ==>
        conc[k, j] == Step(graph, old(Column(conc, j)), old(Column(buf, j)), rates, j)[k] && buf[k, j] == 0.0
      invariant forall k, j :: 0 <= k < |graph| && i <= j < conc.Length1 ==>
        conc[k, j] == old(conc[k, j]) && buf[k, j] == old(buf[k, j])
    {
      assert Column(conc, i) == old(Column(conc, i));
      assert Column(buf, i) == old(Column(buf, i));
      DiffuseChannel(graph, conc, buf, rates, i);
      i := i + 1;
    }
  }

  /** init_pheromones: every new node starts with zero concentrations and empty buffers. */
  method InitPheromones(nodeCount: nat, kinds: nat) returns (conc: array2<real>, buf: array2<real>)
    ensures fresh(conc) && fresh(buf) && conc != buf
    ensures conc.Length0 == nodeCount && conc.Length1 == kinds
    ensures buf.Length0 == nodeCount && buf.Length1 == kinds
    ensures forall k, i :: 0 <= k < nodeCount && 0 <= i < kinds ==> conc[k, i] == 0.0 && buf[k, i] == 0.0
  {
    conc := new real[nodeCount, kinds]((_, _) => 0.0);
    buf := new real[nodeCount, kinds]((_, _) => 0.0);
  }

  // ---------------------------------------------------------------------
  // Properties of one step

  /** n equal shares of x, added one after the other. */
  function Times(n: nat, x: real): real
  {
    if n == 0 then 0.0 else Times(n - 1, x) + x
  }

  lemma {:induction false} TimesIsProduct(n: nat, x: real)
    ensures Times(n, x) == n as real * x
  {
    if n > 0 {
      TimesIsProduct(n - 1, x);
      OneMore(n - 1, x);
    }
  }

  lemma OneMore(n: nat, x: real)
    ensures n as real * x + x == (n + 1) as real * x
  {
  }

  function Count(s: seq<nat>, x: nat): nat
  {
    if |s| == 0 then 0 else Count(s[..|s| - 1], x) + (if s[|s| - 1] == x then 1 else 0)
  }

  /** A target listed k times gains k shares; every other entry is unchanged. */
  lemma {:induction false} ScatterAt(buf: seq<real>, targets: seq<nat>, share: real, k: nat)
    requires forall j :: 0 <= j < |targets| ==> targets[j] < |buf|
    requires k < |buf|
    ensures Scatter(buf, targets, share)[k] == buf[k] + Times(Count(targets, k), share)
  {
    if |targets| > 0 {
      ScatterAt(buf, targets[..|targets| - 1], share, k);
    }
  }

  lemma {:induction false} ScatterNonNegative(buf: seq<real>, targets: seq<nat>, share: real)
    requires forall j :: 0 <= j < |targets| ==> targets[j] < |buf|
    requires share >= 0.0 && forall k :: 0 <= k < |buf| ==> buf[k] >= 0.0
    ensures forall k :: 0 <= k < |buf| ==> Scatter(buf, targets, share)[k] >= 0.0
  {
    if |targets| > 0 {
      ScatterNonNegative(buf, targets[..|targets| - 1], share);
    }
  }

  /** Scattering adds exactly one share per target to the total. */
  lemma {:induction false} SumScatter(buf: seq<real>, targets: seq<nat>, share: real)
    requires forall j :: 0 <= j < |targets| ==> targets[j] < |buf|
    ensures Sum(Scatter(buf, targets, share)) == Sum(buf) + Times(|targets|, share)
  {
    if |targets| > 0 {
      var prev := Scatter(buf, targets[..|targets| - 1], share);
      var t := targets[|targets| - 1];
      SumScatter(buf, targets[..|targets| - 1], share);
      SumUpdate(prev, t, prev[t] + share);
    }
  }

  lemma {:induction false} SumUpdate(s: seq<real>, t: nat, v: real)
    requires t < |s|
    ensures Sum(s[t := v]) == Sum(s) - s[t] + v
  {
    var n := |s| - 1;
    if t == n {
      assert s[t := v][..n] == s[..n];
    } else {
      assert s[t := v][..n] == s[..n][t := v];
      SumUpdate(s[..n], t, v);
    }
  }

  lemma MulNonNegative(x: real, y: real)
    requires x >= 0.0 && y >= 0.0
    ensures x * y >= 0.0
  {
  }

  lemma ShareNonNegative(graph: seq<NavNode<nat>>, c: real, d: real, m: nat)
    requires m < |graph| && c >= 0.0 && d >= 0.0
    ensures Share(graph, c, d, m) >= 0.0
  {
    MulNonNegative(c, d);
  }

  /** A scattering node hands out exactly its diffused part. */
  lemma ShareTotal(graph: seq<NavNode<nat>>, c: real, d: real, m: nat)
    requires m < |graph|
    ensures Times(|graph[m].Neighbors()|, Share(graph, c, d, m)) == c * d
  {
    var n := |graph[m].Neighbors()| as real;
    TimesIsProduct(|graph[m].Neighbors()|, Share(graph, c, d, m));
    assert n > 0.0;
    assert n * (c * d / n) == c * d;
  }

  lemma {:induction false} BuffersNonNegative(graph: seq<NavNode<nat>>, col: seq<real>, b0: seq<real>,
                                              rates: Rates, i: nat, m: nat)
    requires Closed(graph) && |col| == |graph| && |b0| == |graph| && m <= |graph|
    requires rates.InUnitRange(|rates.diffusionRate|) && i < |rates.diffusionRate|
    requires forall k :: 0 <= k < |graph| ==> col[k] >= 0.0 && b0[k] >= 0.0
    ensures forall k :: 0 <= k < |graph| ==> Buffers(graph, col, b0, rates, i, m)[k] >= 0.0
  {
    if m > 0 {
      BuffersNonNegative(graph, col, b0, rates, i, m - 1);
      var prev := Buffers(graph, col, b0, rates, i, m - 1);
      if Scatters(col[m - 1], rates, i) {
        ShareNonNegative(graph, col[m - 1], rates.diffusionRate[i], m - 1);
        ScatterNonNegative(prev, graph[m - 1].Neighbors(), Share(graph, col[m - 1], rates.diffusionRate[i], m - 1));
      }
    }
  }

  /** What the first m nodes hand out in one scatter pass: one share per neighbour of each scattering node. */
  function Sent(graph: seq<NavNode<nat>>, col: seq<real>, rates: Rates, i: nat, m: nat): real
    requires |col| == |graph| && m <= |graph|
    requires i < |rates.diffusionRate| && i < |rates.diffusionFloor|
  {
    if m == 0 then 0.0
    else
      Sent(graph, col, rates, i, m - 1) +
      (if Scatters(col[m - 1], rates, i)
       then Times(|graph[m - 1].Neighbors()|, Share(graph, col[m - 1], rates.diffusionRate[i], m - 1))
       else 0.0)
  }

  /** The scatter pass only moves pheromone: the buffers gain exactly what the nodes hand out. */
  lemma {:induction false} SumBuffers(graph: seq<NavNode<nat>>, col: seq<real>, b0: seq<real>,
                                      rates: Rates, i: nat, m: nat)
    requires Closed(graph) && |col| == |graph| && |b0| == |graph| && m <= |graph|
    requires i < |rates.diffusionRate| && i < |rates.diffusionFloor|
    ensures Sum(Buffers(graph, col, b0, rates, i, m)) == Sum(b0) + Sent(graph, col, rates, i, m)
  {
    if m > 0 {
      SumBuffers(graph, col, b0, rates, i, m - 1);
      if Scatters(col[m - 1], rates, i) {
        SumScatter(Buffers(graph, col, b0, rates, i, m - 1), graph[m - 1].Neighbors(),
                   Share(graph, col[m - 1], rates.diffusionRate[i], m - 1));
      }
    }
  }

  /** A node hands out at most its diffused part d * c, and nothing below the diffusion floor. */
  lemma {:induction false} SentBound(graph: seq<NavNode<nat>>, col: seq<real>, rates: Rates, i: nat, m: nat)
    requires |col| == |graph| && m <= |graph|
    requires rates.InUnitRange(|rates.diffusionRate|) && i < |rates.diffusionRate|
    requires forall k :: 0 <= k < |graph| ==> col[k] >= 0.0
    ensures Sent(graph, col, rates, i, m) <= SumScaled(col[..m], rates.diffusionRate[i])
  {
    if m > 0 {
      var c := col[m - 1];
      var d := rates.diffusionRate[i];
      SentBound(graph, col, rates, i, m - 1);
      SumScaledPrefix(col, d, m);
      if Scatters(c, rates, i) {
        ShareTotal(graph, c, d, m - 1);
      } else {
        MulNonNegative(c, d);
      }
    } else {
      assert col[..0] == [];
    }
  }

  /** With fractions for rates, combining never produces more than was kept and received. */
  lemma CombineBounds(c: real, b: real, rates: Rates, i: nat)
    requires rates.InUnitRange(|rates.diffusionRate|) && i < |rates.diffusionRate|
    requires c >= 0.0 && b >= 0.0
    ensures 0.0 <= Combine(c, b, rates, i) <= c * (1.0 - rates.diffusionRate[i]) + b
  {
    var kept := c * (1.0 - rates.diffusionRate[i]) + b;
    assert kept >= 0.0;
    assert kept * (1.0 - rates.evaporationRate[i]) <= kept;
  }

  /**
   * With rates in [0, 1] and non-negative concentrations and buffers, every
   * new concentration is non-negative, and it is either 0 or above the floor.
   */
  lemma StepNonNegative(graph: seq<NavNode<nat>>, col: seq<real>, b0: seq<real>, rates: Rates, i: nat)
    requires Closed(graph) && |col| == |graph| && |b0| == |graph|
    requires rates.InUnitRange(|rates.diffusionRate|) && i < |rates.diffusionRate|
    requires forall k :: 0 <= k < |graph| ==> col[k] >= 0.0 && b0[k] >= 0.0
    ensures forall k :: 0 <= k < |graph| ==>
      var c := Step(graph, col, b0, rates, i)[k];
      c >= 0.0 && (c == 0.0 || c > rates.concentrationFloor[i])
  {
    BuffersNonNegative(graph, col, b0, rates, i, |graph|);
    var b := Buffers(graph, col, b0, rates, i, |graph|);
    forall k | 0 <= k < |graph|
      ensures var c := Step(graph, col, b0, rates, i)[k];
        c >= 0.0 && (c == 0.0 || c > rates.concentrationFloor[i])
    {
      CombineAllAt(col, b, rates, i, k);
      CombineBounds(col[k], b[k], rates, i);
    }
  }

  /**
   * Diffusion only moves and evaporates pheromone: the channel total after a
   * step is at most the total before it plus what was already buffered.
   */
  lemma StepTotal(graph: seq<NavNode<nat>>, col: seq<real>, b0: seq<real>, rates: Rates, i: nat)
    requires Closed(graph) && |col| == |graph| && |b0| == |graph|
    requires rates.InUnitRange(|rates.diffusionRate|) && i < |rates.diffusionRate|
    requires forall k :: 0 <= k < |graph| ==> col[k] >= 0.0 && b0[k] >= 0.0
    ensures Sum(Step(graph, col, b0, rates, i)) <= Sum(col) + Sum(b0)
  {
    var b := Buffers(graph, col, b0, rates, i, |graph|);
    BuffersTotal(graph, col, b0, rates, i);
    CombineAllTotal(col, b, rates, i);
  }

  /**
   * After the scatter pass the buffers are non-negative and hold at most b0
   * plus the diffused parts, that is, b0 plus what the nodes do not keep.
   */
  lemma BuffersTotal(graph: seq<NavNode<nat>>, col: seq<real>, b0: seq<real>, rates: Rates, i: nat)
    requires Closed(graph) && |col| == |graph| && |b0| == |graph|
    requires rates.InUnitRange(|rates.diffusionRate|) && i < |rates.diffusionRate|
    requires forall k :: 0 <= k < |graph| ==> col[k] >= 0.0 && b0[k] >= 0.0
    ensures var b := Buffers(graph, col, b0, rates, i, |graph|);
      (forall k :: 0 <= k < |graph| ==> b[k] >= 0.0) &&
      Sum(b) <= Sum(b0) + SumScaled(col, rates.diffusionRate[i]) &&
      Sum(b) <= Sum(b0) + Sum(col) - SumScaled(col, 1.0 - rates.diffusionRate[i])
  {
    BuffersNonNegative(graph, col, b0, rates, i, |graph|);
    SumBuffers(graph, col, b0, rates, i, |graph|);
    SentBound(graph, col, rates, i, |graph|);
    assert col[..|graph|] == col;
    KeptPlusDiffused(col, rates.diffusionRate[i]);
  }

  /** The sum of x * s[k]. */
  function SumScaled(s: seq<real>, x: real): real
  {
    if |s| == 0 then 0.0 else SumScaled(s[..|s| - 1], x) + s[|s| - 1] * x
  }

  lemma SumScaledPrefix(s: seq<real>, x: real, m: nat)
    requires 0 < m <= |s|
    ensures SumScaled(s[..m], x) == SumScaled(s[..m - 1], x) + s[m - 1] * x
  {
    assert s[..m][..m - 1] == s[..m - 1];
  }

  /** What a node keeps and what it diffuses add up to what it had. */
  lemma {:induction false} KeptPlusDiffused(s: seq<real>, d: real)
    ensures SumScaled(s, 1.0 - d) + SumScaled(s, d) == Sum(s)
  {
    if |s| > 0 {
      var n := |s| - 1;
      KeptPlusDiffused(s[..n], d);
      assert s[n] * (1.0 - d) + s[n] * d == s[n];
    }
  }

  /** Combining keeps at most (1 - d) of the concentrations plus everything buffered. */
  lemma CombineAllTotal(col: seq<real>, b: seq<real>, rates: Rates, i: nat)
    requires |b| == |col|
    requires rates.InUnitRange(|rates.diffusionRate|) && i < |rates.diffusionRate|
    requires forall k :: 0 <= k < |col| ==> col[k] >= 0.0 && b[k] >= 0.0
    ensures Sum(CombineAll(col, b, rates, i)) <= SumScaled(col, 1.0 - rates.diffusionRate[i]) + Sum(b)
  {
    var r := CombineAll(col, b, rates, i);
    forall k | 0 <= k < |col|
      ensures r[k] <= col[k] * (1.0 - rates.diffusionRate[i]) + b[k]
    {
      CombineAllAt(col, b, rates, i, k);
      CombineBounds(col[k], b[k], rates, i);
    }
    SumBelow(r, col, 1.0 - rates.diffusionRate[i], b);
  }

  /** A pointwise bound x[k] <= s[k] * e + b[k] carries over to the totals. */
  lemma {:induction false} SumBelow(x: seq<real>, s: seq<real>, e: real, b: seq<real>)
    requires |x| == |s| == |b|
    requires forall k :: 0 <= k < |x| ==> x[k] <= s[k] * e + b[k]
    ensures Sum(x) <= SumScaled(s, e) + Sum(b)
  {
    if |x| > 0 {
      var n := |x| - 1;
      SumBelow(x[..n], s[..n], e, b[..n]);
    }
  }

  /** With empty buffers before the step, the total of a channel never increases. */
  lemma StepTotalNonIncreasing(graph: seq<NavNode<nat>>, col: seq<real>, rates: Rates, i: nat)
    requires Closed(graph) && |col| == |graph|
    requires rates.InUnitRange(|rates.diffusionRate|) && i < |rates.diffusionRate|
    requires forall k :: 0 <= k < |graph| ==> col[k] >= 0.0
    ensures Sum(Step(graph, col, seq(|graph|, _ => 0.0), rates, i)) <= Sum(col)
  {
    var zeros := seq(|graph|, _ => 0.0);
    StepTotal(graph, col, zeros, rates, i);
    SumZeros(|graph|);
  }

  lemma {:induction false} SumZeros(n: nat)
    ensures Sum(seq(n, _ => 0.0)) == 0.0
  {
    if n > 0 {
      assert seq(n, _ => 0.0)[..n - 1] == seq(n - 1, _ => 0.0);
      SumZeros(n - 1);
    }
  }

  /** A node with nothing in it and nothing received stays exactly 0. */
  lemma ZeroStaysZero(graph: seq<NavNode<nat>>, col: seq<real>, b0: seq<real>, rates: Rates, i: nat, k: nat)
    requires Closed(graph) && |col| == |graph| && |b0| == |graph|
    requires rates.WellFormed(|rates.diffusionRate|) && i < |rates.diffusionRate|
    requires k < |graph| && col[k] == 0.0 && Buffers(graph, col, b0, rates, i, |graph|)[k] == 0.0
    ensures Step(graph, col, b0, rates, i)[k] == 0.0
  {
    CombineAllAt(col, Buffers(graph, col, b0, rates, i, |graph|), rates, i, k);
  }

  /**
   * Scatter reads only concentrations from before the pass: a node's buffer
   * is its initial value plus, for every earlier scattering node, one share
   * for each time that node lists this one as a neighbour.
   */
  lemma {:induction false} BuffersAt(graph: seq<NavNode<nat>>, col: seq<real>, b0: seq<real>,
                                     rates: Rates, i: nat, m: nat, k: nat)
    requires Closed(graph) && |col| == |graph| && |b0| == |graph| && m <= |graph| && k < |graph|
    requires i < |rates.diffusionRate| && i < |rates.diffusionFloor|
    ensures Buffers(graph, col, b0, rates, i, m)[k] == b0[k] + Received(graph, col, rates, i, m, k)
  {
    if m > 0 {
      BuffersAt(graph, col, b0, rates, i, m - 1, k);
      if Scatters(col[m - 1], rates, i) {
        ScatterAt(Buffers(graph, col, b0, rates, i, m - 1), graph[m - 1].Neighbors(),
                  Share(graph, col[m - 1], rates.diffusionRate[i], m - 1), k);
      }
    }
  }

  /** What node k receives from the first m nodes in one scatter pass. */
  function Received(graph: seq<NavNode<nat>>, col: seq<real>, rates: Rates, i: nat, m: nat, k: nat): real
    requires |col| == |graph| && m <= |graph|
    requires i < |rates.diffusionRate| && i < |rates.diffusionFloor|
  {
    if m == 0 then 0.0
    else
      Received(graph, col, rates, i, m - 1, k) +
      (if Scatters(col[m - 1], rates, i)
       then Times(Count(graph[m - 1].Neighbors(), k), Share(graph, col[m - 1], rates.diffusionRate[i], m - 1))
       else 0.0)
  }

  /** A deposit of `amount` per target raises the channel total by the number of targets times the amount. */
  lemma DepositTotal(before: seq<real>, targets: seq<nat>, amount: real)
    requires forall j :: 0 <= j < |targets| ==> targets[j] < |before|
    ensures Sum(Scatter(before, targets, amount)) == Sum(before) + |targets| as real * amount
  {
    SumScatter(before, targets, amount);
    TimesIsProduct(|targets|, amount);
  }

  /**
   * Adds `amount` to one channel of each target node in turn, as the
   * deposit systems do (`concentrations[channel] += amount` per ant); by
   * ScatterAt a node listed k times gains k times the amount. Nothing else
   * changes.
   */
  method Deposit(conc: array2<real>, targets: seq<nat>, channel: nat, amount: real)
    requires forall j :: 0 <= j < |targets| ==> targets[j] < conc.Length0
    requires channel < conc.Length1
    modifies conc
    ensures forall m, i :: 0 <= m < conc.Length0 && 0 <= i < conc.Length1 && i != channel ==>
      conc[m, i] == old(conc[m, i])
    ensures Column(conc, channel) == Scatter(old(Column(conc, channel)), targets, amount)
  {
    ghost var before := Column(conc, channel);
    var j := 0;
    while j < |targets|
      invariant 0 <= j <= |targets|
      invariant Column(conc, channel) == Scatter(before, targets[..j], amount)
      invariant forall m, i :: 0 <= m < conc.Length0 && 0 <= i < conc.Length1 && i != channel ==>
        conc[m, i] == old(conc[m, i])
    {
      assert targets[..j + 1][..j] == targets[..j];
      conc[targets[j], channel] := conc[targets[j], channel] + amount;
      j := j + 1;
    }
    assert targets[..j] == targets;
  }
}
