/**
 * Dead ants: the bundle that replaces a killed ant, and the pheromone each
 * dead ant deposits on the tile it lies on.
 */
module DeadAnts {
  import opened Common
  import opened Ants
  import opened RenderAnt
  import opened NavMeshLut
  import opened LiveAnts
  import opened Position
  import Concentrations
  import Pheromones

  /** The components of DeadAntBundle that the game logic reads. */
  datatype DeadAntBundle = DeadAntBundle(
    style: AntStyle,
    material: MaterialHandle,
    translation: Vec3,
    collider: Cuboid)

  /**
   * DeadAntBundle::new: keeps the ant's transform and style, draws it with
   * the dead material, and gives it a collider of a third of the ant's size.
   */
  function NewDeadAnt(translation: Vec3, style: AntStyle, c: GameConstants): (b: DeadAntBundle)
    ensures b.translation == translation && b.style == style
    ensures b.material == Dead
    ensures Preset(b.material).flags == FLAG_IS_DEAD
    ensures 3.0 * b.collider.halfX == c.antSize.x && 3.0 * b.collider.halfY == c.antSize.y
  {
    DeadAntBundle(style, Dead, translation, Cuboid(c.antSize.x / 3.0, c.antSize.y / 3.0))
  }

  /**
   * A dead ant's collider fits strictly inside the live ant's, so a fresh
   * corpse does not overlap the player the live ant was touching.
   */
  lemma DeadColliderSmaller(translation: Vec3, style: AntStyle, c: GameConstants)
    requires c.Valid()
    ensures var d := NewDeadAnt(translation, style, c).collider;
      0.0 < d.halfX < AntCollider(c).halfX && 0.0 < d.halfY < AntCollider(c).halfY
  {
  }

  /** The tile entity under each dead ant, as the lookup finds it. */
  function DeadAntTiles(lut: NavMeshLut, deadAnts: seq<Vec3>, c: GameConstants): (tiles: seq<nat>)
    requires lut.Valid() && c.tileSize > 0.0
    requires forall k :: 0 <= k < |deadAnts| ==>
      !TileLookupPanics(lut, deadAnts[k], c) && TileUnder(lut, deadAnts[k], c).Some?
    ensures |tiles| == |deadAnts|
    ensures forall k :: 0 <= k < |deadAnts| ==> tiles[k] == TileUnder(lut, deadAnts[k], c).value
  {
    seq(|deadAnts|, k requires 0 <= k < |deadAnts| => TileUnder(lut, deadAnts[k], c).value)
  }

  /**
   * update_dead_ants_deposit: each dead ant (by global translation) adds the
   * dead-ant deposit to the DeadAnt channel of the tile under it. The lookup
   * and the node query are unwrapped, so every dead ant must lie on an empty
   * tile whose node has concentrations (row m of `conc` is node m).
   */
  method UpdateDeadAntsDeposit(conc: array2<real>, deadAnts: seq<Vec3>, lut: NavMeshLut,
                               config: Pheromones.PheromoneConfig, c: GameConstants)
    requires lut.Valid() && c.tileSize > 0.0
    requires forall k :: 0 <= k < |deadAnts| ==>
      !TileLookupPanics(lut, deadAnts[k], c) && TileUnder(lut, deadAnts[k], c).Some?
    requires forall k :: 0 <= k < |deadAnts| ==> TileUnder(lut, deadAnts[k], c).value < conc.Length0
    requires conc.Length1 == Pheromones.N_PHEROMONE_KINDS
    modifies conc
    ensures forall m, i :: 0 <= m < conc.Length0 && 0 <= i < conc.Length1 && i != Pheromones.PheromoneKind.DeadAnt.Index() ==>
      conc[m, i] == old(conc[m, i])
    ensures Concentrations.Column(conc, Pheromones.PheromoneKind.DeadAnt.Index()) ==
      Concentrations.Scatter(old(Concentrations.Column(conc, Pheromones.PheromoneKind.DeadAnt.Index())),
                             DeadAntTiles(lut, deadAnts, c), config.deadAntDeposit)
  {
    var tiles := DeadAntTiles(lut, deadAnts, c);
    Concentrations.Deposit(conc, tiles, Pheromones.PheromoneKind.DeadAnt.Index(), config.deadAntDeposit);
  }
}
