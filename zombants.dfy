/**
 * Zombants and their queen: spawning them on nav-mesh nodes, the Zombant
 * pheromone every zombant leaves on its node, and the Zombqueen source the
 * single queen emits (without a queen the player has won).
 */
module Zombants {
  import opened Common
  import opened NavNodes
  import opened NavMeshLut
  import opened Movement
  import opened Goals
  import opened RenderAnt
  import opened Position
  import opened Ants
  import opened LiveAnts
  import Concentrations
  import Pheromones
  import Objects
  import Direction

  /** The components of ZombAntBundle that the game logic reads. */
  datatype ZombAntBundle = ZombAntBundle(
    movement: MovementInit,
    style: AntStyle,
    material: MaterialHandle,
    translation: Vec3,
    collider: Cuboid)

  /**
   * ZombAntBundle::new_on_nav_node, whose body is the same as the live
   * ant's: the zombant is placed on the node exactly as a live ant is.
   */
  method NewOnNavNode(direction: Vec3, speed: real, scale: real,
                      primaryKind: AntColorKind, secondaryKind: AntColorKind,
                      nodeEntity: Entity, node: Node, nodePos: Vec3, holderPos: Vec3,
                      primaryColor: Rgb, secondaryColor: Rgb, animationPhase: real,
                      goal: AntGoal, c: GameConstants)
    returns (z: ZombAntBundle)
    requires c.Valid()
    ensures var p := PlaceOnNode(node, nodePos, holderPos, c);
      z.movement == MovementInit(p.kind, speed, direction, nodeEntity, nodePos, goal, 0.0) &&
      z.translation == p.translation && z.material == p.material
    ensures z.style == AntStyle(scale, primaryColor, primaryKind, secondaryColor, secondaryKind, animationPhase)
    ensures z.collider == AntCollider(c)
  {
    var b := LiveAnts.NewOnNavNode(direction, speed, scale, primaryKind, secondaryKind, nodeEntity, node,
                                   nodePos, holderPos, primaryColor, secondaryColor, animationPhase, goal, c);
    z := ZombAntBundle(b.movement, b.style, b.material, b.translation, b.collider);
  }

  /** The components of ZombAntQueenBundle that the game logic reads. */
  datatype ZombAntQueenBundle = ZombAntQueenBundle(
    holds: real,
    movement: MovementInit,
    style: AntStyle,
    material: MaterialHandle,
    translation: Vec3,
    collider: Cuboid)

  /** A queen spawn point: its local translation and its parent entity holder. */
  datatype SpawnPoint = SpawnPoint(translation: Vec3, holder: Entity)

  /** The random draws spawn_zombant_queen makes, passed in. */
  datatype QueenDraws = QueenDraws(
    spawnPoint: nat,
    direction: Vec3,
    primaryChoice: nat,
    secondaryChoice: nat,
    primaryColor: Rgb,
    secondaryColor: Rgb,
    animationPhase: real)

  /**
   * What spawn_zombant_queen unwraps: the node lookup under the chosen spawn
   * point, the node query and the holder's transform all succeed, and the
   * drawn colour indices are within their candidate lists.
   */
  predicate QueenSpawnDemands(spawnPoints: seq<SpawnPoint>, draws: QueenDraws, lut: NavMeshLut, nodes: NodeTable,
                              holders: map<Entity, Vec3>, c: GameConstants)
  {
    lut.Valid() && c.Valid() &&
    (|spawnPoints| > 0 ==>
       draws.spawnPoint < |spawnPoints| &&
       var point := spawnPoints[draws.spawnPoint];
       !TileLookupPanics(lut, point.translation, c) && TileUnder(lut, point.translation, c).Some? &&
       TileUnder(lut, point.translation, c).value in nodes &&
       point.holder in holders &&
       Direction.Length2(draws.direction) == 1.0 &&
       draws.primaryChoice < |PRIMARY_CANDIDATES| &&
       draws.secondaryChoice < |SecondaryCandidates(NewRandom(draws.primaryChoice))|)
  }

  /**
   * spawn_zombant_queen: without a spawn point nothing is spawned; otherwise
   * a queen holding nothing is built from a live ant at speed 40 and scale 1
   * on the node under the chosen spawn point, with a default goal and the two
   * drawn colour kinds.
   */
  method SpawnZombantQueen(spawnPoints: seq<SpawnPoint>, draws: QueenDraws, lut: NavMeshLut, nodes: NodeTable,
                           holders: map<Entity, Vec3>, c: GameConstants)
    returns (queen: Option<ZombAntQueenBundle>)
    requires QueenSpawnDemands(spawnPoints, draws, lut, nodes, holders, c)
    ensures queen.None? <==> |spawnPoints| == 0
    ensures queen.Some? ==>
      var point := spawnPoints[draws.spawnPoint];
      var e := TileUnder(lut, point.translation, c).value;
      var p := PlaceOnNode(nodes[e].0, nodes[e].1, holders[point.holder], c);
      var q := queen.value;
      q.holds == 0.0 && q.movement.kind == p.kind && q.translation == p.translation &&
      q.material == p.material && q.movement.currentNode == e && q.movement.currentNodePos == nodes[e].1 &&
      q.movement.speed == 40.0 && q.movement.direction == draws.direction && q.movement.lastDirectionUpdate == 0.0 &&
      q.movement.goal.kind == Objects.ObjectKind.Default && q.movement.goal.holds == 0.0 &&
      q.style.scale == 1.0 && q.style.colorPrimaryKind != White && q.style.colorSecondaryKind != White &&
      q.style.colorSecondaryKind in SecondaryCandidates(q.style.colorPrimaryKind) &&
      q.collider == AntCollider(c)
  {
    if |spawnPoints| == 0 {
      queen := None;
      return;
    }
    var point := spawnPoints[draws.spawnPoint];
    var nodeEntity := TileUnder(lut, point.translation, c).value;
    var (node, nodePos) := nodes[nodeEntity];
    var holderPos := holders[point.holder];
    var primaryKind := NewRandom(draws.primaryChoice);
    var secondaryKind := NewRandomFromPrimary(primaryKind, draws.secondaryChoice);
    var goal := new AntGoal();
    var b := LiveAnts.NewOnNavNode(draws.direction, 40.0, 1.0, primaryKind, secondaryKind, nodeEntity, node, nodePos,
                                   holderPos, draws.primaryColor, draws.secondaryColor, draws.animationPhase, goal, c);
    queen := Some(ZombAntQueenBundle(0.0, b.movement, b.style, b.material, b.translation, b.collider));
  }

  /**
   * update_zombants_deposit: each zombant adds the zombant deposit to the
   * Zombant channel of its current node (an unwrapped node query, so every
   * current node is a row of `conc`); every other channel is untouched.
   */
  method UpdateZombantsDeposit(conc: array2<real>, zombants: seq<Entity>, config: Pheromones.PheromoneConfig)
    requires forall k :: 0 <= k < |zombants| ==> zombants[k] < conc.Length0
    requires conc.Length1 == Pheromones.N_PHEROMONE_KINDS
    modifies conc
    ensures forall m, i :: 0 <= m < conc.Length0 && 0 <= i < conc.Length1 && i != Pheromones.PheromoneKind.Zombant.Index() ==>
      conc[m, i] == old(conc[m, i])
    ensures Concentrations.Column(conc, Pheromones.PheromoneKind.Zombant.Index()) ==
      Concentrations.Scatter(old(Concentrations.Column(conc, Pheromones.PheromoneKind.Zombant.Index())),
                             zombants, config.zombantDeposit)
  {
    Concentrations.Deposit(conc, zombants, Pheromones.PheromoneKind.Zombant.Index(), config.zombantDeposit);
  }

  /**
   * update_zombqueen_source: with exactly one queen, the zombqueen source is
   * added to the Zombqueen channel of her node; with none or several (the
   * single-entity query fails) nothing is added and the game moves to Win.
   */
  method UpdateZombqueenSource(conc: array2<real>, queens: seq<Entity>, config: Pheromones.PheromoneConfig)
    returns (win: bool)
    requires |queens| == 1 ==> queens[0] < conc.Length0
    requires conc.Length1 == Pheromones.N_PHEROMONE_KINDS
    modifies conc
    ensures win <==> |queens| != 1
    ensures forall m, i :: 0 <= m < conc.Length0 && 0 <= i < conc.Length1 ==>
      conc[m, i] == old(conc[m, i]) +
        (if |queens| == 1 && m == queens[0] && i == Pheromones.PheromoneKind.Zombqueen.Index()
         then config.zombqueenSource else 0.0)
  {
    if |queens| == 1 {
      var node := queens[0];
      var channel := Pheromones.PheromoneKind.Zombqueen.Index();
      conc[node, channel] := conc[node, channel] + config.zombqueenSource;
      win := false;
    } else {
      win := true;
    }
  }
}
