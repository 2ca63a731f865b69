/**
 * Pheromone sources: nodes whose concentrations are pinned to a fixed array
 * each frame, and the start-up pass that turns the level's objects into
 * sources on the nav-mesh nodes under them.
 *
 * The updates set/add/clear/sub are modelled as written: on an existing
 * array they bind a copy (`if let Some(mut c) = self.concentrations`), so
 * set and add leave an existing source unchanged, and clear and sub can only
 * remove a source, never change its values.
 */
module Sources {
  import opened Common
  import opened NavMeshLut
  import opened Objects
  import Pheromones

  const K: nat := Pheromones.N_PHEROMONE_KINDS

  /** The array of n channels that is zero except for x at kind. */
  function OneHot(n: nat, kind: nat, x: real): (r: seq<real>)
    requires kind < n
    ensures |r| == n
  {
    seq(n, j requires 0 <= j < n => if j == kind then x else 0.0)
  }

  predicate AllZero(s: seq<real>)
  {
    forall j :: 0 <= j < |s| ==> s[j] == 0.0
  }

  /** An absent source, or one with an entry per channel. */
  predicate WellSized(c: Option<seq<real>>, n: nat)
  {
    c.Some? ==> |c.value| == n
  }

  /** The effect of set on a source of n channels. */
  function SetSource(n: nat, c: Option<seq<real>>, kind: nat, x: real): Option<seq<real>>
    requires kind < n
  {
    match c
    case Some(_) => c
    case None => Some(OneHot(n, kind, x))
  }

  /** The effect of add on a source of n channels: the array is created only when there is none. */
  function AddSource(n: nat, c: Option<seq<real>>, kind: nat, x: real): Option<seq<real>>
    requires kind < n
  {
    match c
    case Some(_) => c
    case None => Some(OneHot(n, kind, x))
  }

  /** The effect of clear: the copy with kind zeroed decides removal. */
  function ClearSource(n: nat, c: Option<seq<real>>, kind: nat): Option<seq<real>>
    requires kind < n && WellSized(c, n)
  {
    match c
    case None => None
    case Some(cs) => if AllZero(cs[kind := 0.0]) then None else c
  }

  /** The effect of sub: the copy with kind lowered (not below 0) decides removal. */
  function SubSource(n: nat, c: Option<seq<real>>, kind: nat, x: real): Option<seq<real>>
    requires kind < n && WellSized(c, n)
  {
    match c
    case None => None
    case Some(cs) => if AllZero(cs[kind := Max(cs[kind] - x, 0.0)]) then None else c
  }

  /** An absent source becomes the one-hot array; a present one is left as it is. */
  lemma SetAddCreateOnlyWhenAbsent(n: nat, c: Option<seq<real>>, kind: nat, x: real)
    requires kind < n && WellSized(c, n)
    ensures c.None? ==>
      SetSource(n, c, kind, x).Some? && AddSource(n, c, kind, x).Some? &&
      var r := SetSource(n, c, kind, x).value;
      r == AddSource(n, c, kind, x).value && |r| == n && r[kind] == x &&
      forall j :: 0 <= j < n && j != kind ==> r[j] == 0.0
    ensures c.Some? ==> SetSource(n, c, kind, x) == c && AddSource(n, c, kind, x) == c
  {
  }

  /** clear removes a source exactly when every other channel is zero, and otherwise changes nothing. */
  lemma ClearRemovesIff(n: nat, c: Option<seq<real>>, kind: nat)
    requires kind < n && WellSized(c, n)
    ensures ClearSource(n, c, kind).None? <==>
      (c.None? || forall j :: 0 <= j < n && j != kind ==> c.value[j] == 0.0)
    ensures ClearSource(n, c, kind).Some? ==> ClearSource(n, c, kind) == c
  {
    if c.Some? {
      var copy := c.value[kind := 0.0];
      if forall j :: 0 <= j < n && j != kind ==> c.value[j] == 0.0 {
        assert AllZero(copy);
      } else {
        var j :| 0 <= j < n && j != kind && c.value[j] != 0.0;
        assert copy[j] != 0.0;
      }
    }
  }

  /** sub removes a source exactly when x covers the channel and every other channel is zero. */
  lemma SubRemovesIff(n: nat, c: Option<seq<real>>, kind: nat, x: real)
    requires kind < n && WellSized(c, n)
    ensures SubSource(n, c, kind, x).None? <==>
      (c.None? ||
       (Max(c.value[kind] - x, 0.0) == 0.0 && forall j :: 0 <= j < n && j != kind ==> c.value[j] == 0.0))
    ensures SubSource(n, c, kind, x).Some? ==> SubSource(n, c, kind, x) == c
  {
    if c.Some? {
      var copy := c.value[kind := Max(c.value[kind] - x, 0.0)];
      if Max(c.value[kind] - x, 0.0) == 0.0 && forall j :: 0 <= j < n && j != kind ==> c.value[j] == 0.0 {
        assert AllZero(copy);
      } else if Max(c.value[kind] - x, 0.0) != 0.0 {
        assert copy[kind] != 0.0;
      } else {
        var j :| 0 <= j < n && j != kind && c.value[j] != 0.0;
        assert copy[j] != 0.0;
      }
    }
  }

  class PheromoneSources {
    var concentrations: Option<seq<real>>

    predicate Valid()
      reads this
    {
      WellSized(concentrations, K)
    }

    /** The default component: no source. */
    constructor ()
      ensures concentrations == None && Valid()
    {
      concentrations := None;
    }

    method Set(kind: nat, concentration: real)
      requires Valid() && kind < K
      modifies this
      ensures Valid() && concentrations == SetSource(K, old(concentrations), kind, concentration)
    {
      if concentrations.Some? {
        var copy := concentrations.value;
        copy := copy[kind := concentration];
      } else {
        var created := seq(K, _ => 0.0);
        created := created[kind := concentration];
        assert created == OneHot(K, kind, concentration);
        concentrations := Some(created);
      }
    }

    method Clear(kind: nat)
      requires Valid() && kind < K
      modifies this
      ensures Valid() && concentrations == ClearSource(K, old(concentrations), kind)
    {
      if concentrations.Some? {
        var copy := concentrations.value;
        copy := copy[kind := 0.0];
        if forall j :: 0 <= j < |copy| ==> copy[j] == 0.0 {
          concentrations := None;
        }
      }
    }

    method Add(kind: nat, concentration: real)
      requires Valid() && kind < K
      modifies this
      ensures Valid() && concentrations == AddSource(K, old(concentrations), kind, concentration)
    {
      if concentrations.Some? {
        var copy := concentrations.value;
        copy := copy[kind := copy[kind] + concentration];
      } else {
        var created := seq(K, _ => 0.0);
        created := created[kind := concentration];
        assert created == OneHot(K, kind, concentration);
        concentrations := Some(created);
      }
    }

    method Sub(kind: nat, concentration: real)
      requires Valid() && kind < K
      modifies this
      ensures Valid() && concentrations == SubSource(K, old(concentrations), kind, concentration)
    {
      if concentrations.Some? {
        var copy := concentrations.value;
        copy := copy[kind := Max(copy[kind] - concentration, 0.0)];
        if forall j :: 0 <= j < |copy| ==> copy[j] == 0.0 {
          concentrations := None;
        }
      }
    }
  }

  /** A node's concentrations after its source is applied. */
  function Applied(current: seq<real>, source: Option<seq<real>>): seq<real>
  {
    match source
    case Some(cs) => cs
    case None => current
  }

  /** Applying the same sources twice is the same as applying them once. */
  lemma AppliedIdempotent(current: seq<real>, source: Option<seq<real>>)
    ensures Applied(Applied(current, source), source) == Applied(current, source)
    ensures source.None? ==> Applied(current, source) == current
  {
  }

  function Row(a: array2<real>, k: nat): (r: seq<real>)
    requires k < a.Length0
    reads a
    ensures |r| == a.Length1 && forall i :: 0 <= i < a.Length1 ==> r[i] == a[k, i]
  {
    seq(a.Length1, i requires 0 <= i < a.Length1 reads a => a[k, i])
  }

  /** apply_sources: row k of the concentrations is node k; sources[k] is its source. */
  method ApplySources(conc: array2<real>, sources: seq<Option<seq<real>>>)
    requires |sources| == conc.Length0
    requires forall k :: 0 <= k < |sources| ==> sources[k].Some? ==> |sources[k].value| == conc.Length1
    modifies conc
    ensures forall k :: 0 <= k < conc.Length0 ==> Row(conc, k) == Applied(old(Row(conc, k)), sources[k])
  {
    var k := 0;
    while k < conc.Length0
      invariant 0 <= k <= conc.Length0
      invariant forall q, i :: 0 <= q < k && 0 <= i < conc.Length1 ==>
        conc[q, i] == Applied(old(Row(conc, q)), sources[q])[i]
      invariant forall q, i :: k <= q < conc.Length0 && 0 <= i < conc.Length1 ==> conc[q, i] == old(conc[q, i])
    {
      if sources[k].Some? {
        CopyRow(conc, k, sources[k].value);
      }
      k := k + 1;
    }
    forall k | 0 <= k < conc.Length0
      ensures Row(conc, k) == Applied(old(Row(conc, k)), sources[k])
    {
      assert |Row(conc, k)| == |Applied(old(Row(conc, k)), sources[k])|;
    }
  }

  /** Overwrites row k with cs, leaving every other row as it was. */
  method CopyRow(conc: array2<real>, k: nat, cs: seq<real>)
    requires k < conc.Length0 && |cs| == conc.Length1
    modifies conc
    ensures forall i :: 0 <= i < conc.Length1 ==> conc[k, i] == cs[i]
    ensures forall q, i :: 0 <= q < conc.Length0 && q != k && 0 <= i < conc.Length1 ==> conc[q, i] == old(conc[q, i])
  {
    var i := 0;
    while i < conc.Length1
      invariant 0 <= i <= conc.Length1
      invariant forall j :: 0 <= j < i ==> conc[k, j] == cs[j]
      invariant forall q, j :: 0 <= q < conc.Length0 && q != k && 0 <= j < conc.Length1 ==> conc[q, j] == old(conc[q, j])
    {
      conc[k, i] := cs[i];
      i := i + 1;
    }
  }

  /** One level object: its tile entity, the object, and its grid coordinates. */
  type SourceTile = (Entity, Object, ObjectCoords)

  /** The node entity under grid coordinates (negative coordinates find none). */
  function NodeAt(lut: NavMeshLut, coords: ObjectCoords): Option<Entity>
    requires lut.Valid()
  {
    if coords.x < 0 || coords.y < 0 then None
    else
      match GetTileEntityGrid(lut, coords.x, coords.y)
      case Some((e, _)) => Some(e)
      case None => None
  }

  predicate AllFound(lut: NavMeshLut, tiles: seq<SourceTile>)
    requires lut.Valid()
  {
    forall t :: 0 <= t < |tiles| ==> NodeAt(lut, tiles[t].2).Some?
  }

  /** The objects, in iteration order, that land on node e. */
  function ObjectsAt(lut: NavMeshLut, tiles: seq<SourceTile>, e: Entity): seq<Object>
    requires lut.Valid() && AllFound(lut, tiles)
  {
    if |tiles| == 0 then []
    else
      var t := tiles[|tiles| - 1];
      ObjectsAt(lut, tiles[..|tiles| - 1], e) + (if NodeAt(lut, t.2).value == e then [t.1] else [])
  }

  /** A source after adding each object in turn. */
  function AddAll(c: Option<seq<real>>, objects: seq<Object>): (r: Option<seq<real>>)
    ensures WellSized(c, K) ==> WellSized(r, K)
  {
    if |objects| == 0 then c
    else
      var o := objects[|objects| - 1];
      AddSource(K, AddAll(c, objects[..|objects| - 1]), o.Kind(), o.concentration)
  }

  /**
   * Because add does nothing to an existing array, a node that has a source
   * keeps it, and a node without one gets the one-hot array of the first
   * object that lands on it; later objects are lost.
   */
  lemma {:induction false} AddAllFirstWins(c: Option<seq<real>>, objects: seq<Object>)
    ensures AddAll(c, objects) ==
      if c.Some? || |objects| == 0 then c
      else Some(OneHot(K, objects[0].Kind(), objects[0].concentration))
  {
    if |objects| > 0 {
      var n := |objects| - 1;
      AddAllFirstWins(c, objects[..n]);
      if n > 0 {
        assert objects[..n][0] == objects[0];
      }
    }
  }

  /** Taking one more tile into account appends its object at its own node and nowhere else. */
  lemma ObjectsAtStep(lut: NavMeshLut, tiles: seq<SourceTile>, j: nat)
    requires lut.Valid() && AllFound(lut, tiles) && j < |tiles|
    ensures AllFound(lut, tiles[..j]) && AllFound(lut, tiles[..j + 1])
    ensures forall e, c ::
              AddAll(c, ObjectsAt(lut, tiles[..j + 1], e)) ==
              if NodeAt(lut, tiles[j].2).value == e
              then AddSource(K, AddAll(c, ObjectsAt(lut, tiles[..j], e)), tiles[j].1.Kind(), tiles[j].1.concentration)
              else AddAll(c, ObjectsAt(lut, tiles[..j], e))
  {
    assert tiles[..j + 1][..j] == tiles[..j];
    forall e, c: Option<seq<real>>
      ensures AddAll(c, ObjectsAt(lut, tiles[..j + 1], e)) ==
              if NodeAt(lut, tiles[j].2).value == e
              then AddSource(K, AddAll(c, ObjectsAt(lut, tiles[..j], e)), tiles[j].1.Kind(), tiles[j].1.concentration)
              else AddAll(c, ObjectsAt(lut, tiles[..j], e))
    {
      var prefix := ObjectsAt(lut, tiles[..j], e);
      if NodeAt(lut, tiles[j].2).value == e {
        assert (prefix + [tiles[j].1])[..|prefix|] == prefix;
      } else {
        assert prefix + [] == prefix;
      }
    }
  }

  /** Taking one more tile into account places its object on its node and strips its tile, when it is a node. */
  lemma PlaceStep(lut: NavMeshLut, tiles: seq<SourceTile>, j: nat, placed: map<Entity, Object>, nodes: set<Entity>)
    requires lut.Valid() && AllFound(lut, tiles) && j < |tiles|
    ensures AllFound(lut, tiles[..j]) && AllFound(lut, tiles[..j + 1])
    ensures PlaceAll(placed, lut, tiles[..j + 1], nodes) ==
      var e := NodeAt(lut, tiles[j].2).value;
      var prev := PlaceAll(placed, lut, tiles[..j], nodes);
      if e in nodes then prev[e := tiles[j].1] else prev
    ensures Stripped(lut, tiles[..j + 1], nodes) ==
      Stripped(lut, tiles[..j], nodes) + (if NodeAt(lut, tiles[j].2).value in nodes then {tiles[j].0} else {})
  {
    assert tiles[..j + 1][..j] == tiles[..j];
  }

  /** The object that the last insertion leaves on each node. */
  function PlaceAll(placed: map<Entity, Object>, lut: NavMeshLut, tiles: seq<SourceTile>, nodes: set<Entity>)
    : map<Entity, Object>
    requires lut.Valid() && AllFound(lut, tiles)
  {
    if |tiles| == 0 then placed
    else
      var t := tiles[|tiles| - 1];
      var prev := PlaceAll(placed, lut, tiles[..|tiles| - 1], nodes);
      var e := NodeAt(lut, t.2).value;
      if e in nodes then prev[e := t.1] else prev
  }

  /** The tiles whose Object and ObjectCoords are removed: those that landed on a node. */
  function Stripped(lut: NavMeshLut, tiles: seq<SourceTile>, nodes: set<Entity>): set<Entity>
    requires lut.Valid() && AllFound(lut, tiles)
  {
    set t | 0 <= t < |tiles| && NodeAt(lut, tiles[t].2).value in nodes :: tiles[t].0
  }

  /**
   * init_sources: every object adds its concentration on its channel at the
   * node under it, is inserted on that node and removed from its tile.
   * Objects under a non-node entity are skipped. The lookup is unwrapped by
   * the source, so every object must lie on the grid.
   */
  method InitSources(lut: NavMeshLut, tiles: seq<SourceTile>, nodes: map<Entity, PheromoneSources>,
                     nodeObjects: map<Entity, Object>)
    returns (placed: map<Entity, Object>, stripped: set<Entity>)
    requires lut.Valid() && AllFound(lut, tiles)
    requires forall e :: e in nodes ==> nodes[e].Valid()
    requires forall a, b :: a in nodes && b in nodes && a != b ==> nodes[a] != nodes[b]
    modifies set e | e in nodes :: nodes[e]
    ensures forall e :: e in nodes ==>
      nodes[e].Valid() && nodes[e].concentrations == AddAll(old(nodes[e].concentrations), ObjectsAt(lut, tiles, e))
    ensures placed == PlaceAll(nodeObjects, lut, tiles, nodes.Keys)
    ensures stripped == Stripped(lut, tiles, nodes.Keys)
  {
    ghost var c0 := map e | e in nodes :: nodes[e].concentrations;
    placed := nodeObjects;
    stripped := {};
    var j := 0;
    while j < |tiles|
      invariant 0 <= j <= |tiles|
      invariant forall e :: e in nodes ==>
        nodes[e].Valid() && nodes[e].concentrations == AddAll(c0[e], ObjectsAt(lut, tiles[..j], e))
      invariant placed == PlaceAll(nodeObjects, lut, tiles[..j], nodes.Keys)
      invariant stripped == Stripped(lut, tiles[..j], nodes.Keys)
    {
      var (tileId, obj, coords) := tiles[j];
      var nodeId := NodeAt(lut, coords).value;
      PlaceStep(lut, tiles, j, nodeObjects, nodes.Keys);
      AddObject(lut, tiles, j, nodes, c0);
      if nodeId in nodes {
        placed := placed[nodeId := obj];
        stripped := stripped + {tileId};
      }
      j := j + 1;
    }
    assert tiles[..|tiles|] == tiles;
  }

  /** The source update of init_sources for the j-th object: add it on the node under it, if that is a node. */
  method AddObject(lut: NavMeshLut, tiles: seq<SourceTile>, j: nat, nodes: map<Entity, PheromoneSources>,
                   ghost c0: map<Entity, Option<seq<real>>>)
    requires lut.Valid() && AllFound(lut, tiles) && j < |tiles|
    requires forall a, b :: a in nodes && b in nodes && a != b ==> nodes[a] != nodes[b]
    requires forall e :: e in nodes ==> e in c0
    requires AllFound(lut, tiles[..j])
    requires forall e :: e in nodes ==>
      nodes[e].Valid() && nodes[e].concentrations == AddAll(c0[e], ObjectsAt(lut, tiles[..j], e))
    modifies set e | e in nodes :: nodes[e]
    ensures AllFound(lut, tiles[..j + 1])
    ensures forall e :: e in nodes ==>
      nodes[e].Valid() && nodes[e].concentrations == AddAll(c0[e], ObjectsAt(lut, tiles[..j + 1], e))
  {
    var (_, obj, coords) := tiles[j];
    var nodeId := NodeAt(lut, coords).value;
    ObjectsAtStep(lut, tiles, j);
    if nodeId in nodes {
      nodes[nodeId].Add(obj.Kind(), obj.concentration);
    }
  }
}
