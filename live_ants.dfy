/**
 * Spawning a live ant on a nav-mesh node: the node's variant decides the
 * ant's surface, where its body sits against the wall, and whether it is
 * drawn with the side or the top material.
 */
module LiveAnts {
  import opened Common
  import opened NavNodes
  import opened Movement
  import opened Goals
  import opened RenderAnt
  import opened Position
  import opened Ants

  /** Collider::cuboid: an axis-aligned box given by its half extents. */
  datatype Cuboid = Cuboid(halfX: real, halfY: real)

  /** The collider of a live ant: a box the size of the ant. */
  function AntCollider(c: GameConstants): (b: Cuboid)
    requires c.Valid()
    ensures b.halfX > 0.0 && b.halfY > 0.0
    ensures 2.0 * b.halfX == c.antSize.x && 2.0 * b.halfY == c.antSize.y
  {
    Cuboid(c.antSize.x / 2.0, c.antSize.y / 2.0)
  }

  /** The movement record a spawned ant starts with. */
  datatype MovementInit = MovementInit(
    kind: AntPositionKind,
    speed: real,
    direction: Vec3,
    currentNode: Entity,
    currentNodePos: Vec3,
    goal: AntGoal,
    lastDirectionUpdate: real)

  /** The components of LiveAntBundle that the game logic reads. */
  datatype LiveAntBundle = LiveAntBundle(
    movement: MovementInit,
    style: AntStyle,
    material: MaterialHandle,
    translation: Vec3,
    collider: Cuboid)

  /** How far an ant's centre sits from a wall: half its size less the clipping depth. */
  function WallOffset(halfSize: real, c: GameConstants): real
  {
    halfSize - c.antWallClipping
  }

  /** The surface, local translation and material of an ant spawned on a node. */
  datatype Placement = Placement(kind: AntPositionKind, translation: Vec3, material: MaterialHandle)

  /**
   * The placement of an ant on a node whose global translation is nodePos,
   * under an entity holder at holderPos: background ants lie flat on the
   * tile; wall ants stand at the wall height, pushed off the wall by the
   * wall offset on the axis across it.
   */
  function PlaceOnNode(node: Node, nodePos: Vec3, holderPos: Vec3, c: GameConstants): (p: Placement)
    ensures OnSide(p.kind, node)
    ensures p.material == Side <==> !node.Background?
    ensures p.material == Top <==> node.Background?
    ensures var t := Relative(nodePos, holderPos);
      (node.Background? ==> p.translation == Vec3(t.x, t.y, 0.0)) &&
      (!node.Background? ==> p.translation.z == c.tileSize * c.wallZFactor) &&
      (node.VerticalEdge? ==>
         p.translation.y == t.y &&
         p.translation.x - t.x == (if node.isLeftSide then 1.0 else -1.0) * WallOffset(c.antSize.x / 2.0, c)) &&
      (node.HorizontalEdge? ==>
         p.translation.x == t.x &&
         p.translation.y - t.y == (if node.isUpSide then -1.0 else 1.0) * WallOffset(c.antSize.y / 2.0, c))
  {
    var t := Relative(nodePos, holderPos);
    match node
    case Background(_, _, _, _) =>
      Placement(AntPositionKind.Background, Vec3(t.x, t.y, 0.0), Top)
    case VerticalEdge(_, _, _, isLeftSide) =>
      var dx := WallOffset(c.antSize.x / 2.0, c) * (if isLeftSide then 1.0 else -1.0);
      Placement(VerticalWall(isLeftSide), Vec3(t.x + dx, t.y, c.tileSize * c.wallZFactor), Side)
    case HorizontalEdge(_, _, _, isUpSide) =>
      var dy := WallOffset(c.antSize.y / 2.0, c) * (if isUpSide then -1.0 else 1.0);
      Placement(HorizontalWall(isUpSide), Vec3(t.x, t.y + dy, c.tileSize * c.wallZFactor), Side)
  }

  /**
   * A spawned ant passes assert_ants: its kind agrees with the node it is
   * attached to, so it is not despawned.
   */
  lemma SpawnedAntIsNotMisplaced(ant: Entity, nodeEntity: Entity, nodes: NodeTable, holderPos: Vec3, c: GameConstants)
    requires nodeEntity in nodes
    ensures var p := PlaceOnNode(nodes[nodeEntity].0, nodes[nodeEntity].1, holderPos, c);
      Misplaced([(ant, p.kind, nodeEntity)], nodes) == []
  {
    var p := PlaceOnNode(nodes[nodeEntity].0, nodes[nodeEntity].1, holderPos, c);
    assert Agrees(p.kind, nodes[nodeEntity].0);
    MisplacedExactly([(ant, p.kind, nodeEntity)], nodes, ant);
  }

  /**
   * A wall ant is spawned off the wall on the side the wall faces: with a
   * clipping depth smaller than half the ant, a left-side vertical edge
   * puts it to the right of the node, a right-side one to the left, an
   * up-side horizontal edge below and a down-side one above.
   */
  lemma SpawnedOffTheWall(node: Node, nodePos: Vec3, holderPos: Vec3, c: GameConstants)
    requires c.Valid()
    requires c.antWallClipping < c.antSize.x / 2.0 && c.antWallClipping < c.antSize.y / 2.0
    ensures var p := PlaceOnNode(node, nodePos, holderPos, c);
      var t := Relative(nodePos, holderPos);
      (node.VerticalEdge? ==> (p.translation.x > t.x <==> node.isLeftSide)) &&
      (node.HorizontalEdge? ==> (p.translation.y < t.y <==> node.isUpSide)) &&
      (!node.Background? ==> p.translation.z > 0.0)
  {
    var p := PlaceOnNode(node, nodePos, holderPos, c);
    assert c.tileSize * c.wallZFactor > 0.0;
  }

  /**
   * LiveAntBundle::new_on_nav_node: starts from the node's transform as
   * seen from the holder, adjusts it by the node's variant, and records the
   * node as the ant's current node with no steering decision yet.
   */
  method NewOnNavNode(direction: Vec3, speed: real, scale: real,
                      primaryKind: AntColorKind, secondaryKind: AntColorKind,
                      nodeEntity: Entity, node: Node, nodePos: Vec3, holderPos: Vec3,
                      primaryColor: Rgb, secondaryColor: Rgb, animationPhase: real,
                      goal: AntGoal, c: GameConstants)
    returns (b: LiveAntBundle)
    requires c.Valid()
    ensures var p := PlaceOnNode(node, nodePos, holderPos, c);
      b.movement == MovementInit(p.kind, speed, direction, nodeEntity, nodePos, goal, 0.0) &&
      b.translation == p.translation && b.material == p.material
    ensures b.style == AntStyle(scale, primaryColor, primaryKind, secondaryColor, secondaryKind, animationPhase)
    ensures b.collider == AntCollider(c)
  {
    var translation := Relative(nodePos, holderPos);
    var isSide := true;
    var kind: AntPositionKind;
    match node {
      case Background(_, _, _, _) =>
        translation := translation.(z := 0.0);
        isSide := false;
        kind := AntPositionKind.Background;
      case VerticalEdge(_, _, _, isLeftSide) =>
        translation := translation.(z := c.tileSize * c.wallZFactor);
        translation := translation.(x := translation.x +
          (c.antSize.x / 2.0 - c.antWallClipping) * (if isLeftSide then 1.0 else -1.0));
        kind := VerticalWall(isLeftSide);
      case HorizontalEdge(_, _, _, isUpSide) =>
        translation := translation.(z := c.tileSize * c.wallZFactor);
        translation := translation.(y := translation.y +
          (c.antSize.y / 2.0 - c.antWallClipping) * (if isUpSide then -1.0 else 1.0));
        kind := HorizontalWall(isUpSide);
    }
    var material := if isSide then Side else Top;
    b := LiveAntBundle(
      MovementInit(kind, speed, direction, nodeEntity, nodePos, goal, 0.0),
      AntStyle(scale, primaryColor, primaryKind, secondaryColor, secondaryKind, animationPhase),
      material,
      translation,
      Cuboid(c.antSize.x / 2.0, c.antSize.y / 2.0));
  }

  /**
   * LiveAntBundle::spawn_on_nav_node: the ant comes into being with the
   * bundle's movement record and transform. The goal is moved in, as in
   * Rust: the caller hands over an AntGoal it does not use again (as
   * Zombants.SpawnZombantQueen does with a fresh default goal).
   */
  method SpawnOnNavNode(direction: Vec3, speed: real, scale: real,
                        primaryKind: AntColorKind, secondaryKind: AntColorKind,
                        nodeEntity: Entity, node: Node, nodePos: Vec3, holderPos: Vec3,
                        primaryColor: Rgb, secondaryColor: Rgb, animationPhase: real,
                        goal: AntGoal, c: GameConstants)
    returns (ant: AntMovement, transform: Transform)
    requires c.Valid()
    ensures fresh(ant) && fresh(transform)
    ensures var p := PlaceOnNode(node, nodePos, holderPos, c);
      StateOf(ant, transform) == AntState(p.kind, direction, nodeEntity, nodePos, p.translation)
    ensures ant.speed == speed && ant.goal == goal && ant.lastDirectionUpdate == 0.0
  {
    var b := NewOnNavNode(direction, speed, scale, primaryKind, secondaryKind, nodeEntity, node, nodePos,
                          holderPos, primaryColor, secondaryColor, animationPhase, goal, c);
    var m := b.movement;
    ant := new AntMovement(m.kind, m.speed, m.direction, m.currentNode, m.currentNodePos, m.goal,
                           m.lastDirectionUpdate);
    transform := new Transform(b.translation);
  }
}
