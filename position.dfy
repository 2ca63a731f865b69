/**
 * How an ant moves between the background and the walls of the nav mesh,
 * and how it advances along its surface. The transitions of one frame are
 * a function of the ant's state, its contact list and the node table; the
 * per-ant update methods are proved to perform exactly that function.
 */
module Position {
  import opened Common
  import opened NavNodes
  import opened NavMeshLut
  import NavMesh
  import opened Movement
  import RenderAnt

  /** The ant's local transform; only its translation is modelled. */
  class Transform {
    var translation: Vec3

    constructor (translation: Vec3)
      ensures this.translation == translation
    {
      this.translation := translation;
    }
  }

  /** The nav-node query: each node entity with its node and its global translation. */
  type NodeTable = map<Entity, (Node, Vec3)>

  /** The part of an ant that the position code reads and writes. */
  datatype AntState = AntState(
    kind: AntPositionKind,
    direction: Vec3,
    currentNode: Entity,
    currentNodePos: Vec3,
    translation: Vec3)

  function StateOf(ant: AntMovement, t: Transform): AntState
    reads ant, t
  {
    AntState(ant.positionKind, ant.direction, ant.currentNode, ant.currentNodePos, t.translation)
  }

  /** `reparented_to` on translations: where the wall is as seen from the ant. */
  function Relative(wall: Vec3, ant: Vec3): Vec3
  {
    Vec3(wall.x - ant.x, wall.y - ant.y, wall.z - ant.z)
  }

  /** The squared xy distance, which orders contacts as the xy distance does. */
  function Distance2(a: Vec3, b: Vec3): real
  {
    (a.x - b.x) * (a.x - b.x) + (a.y - b.y) * (a.y - b.y)
  }

  /** The kind of an ant agrees with the variant of a node. */
  predicate Agrees(kind: AntPositionKind, node: Node)
  {
    match kind
    case Background => node.Background?
    case VerticalWall(_) => node.VerticalEdge?
    case HorizontalWall(_) => node.HorizontalEdge?
  }

  // ---------------------------------------------------------------------
  // find_closest_wall

  /** A Background node among the contacts is unreachable in the source. */
  predicate NoBackgroundContacts(contacts: seq<Entity>, nodes: NodeTable)
  {
    forall j :: 0 <= j < |contacts| && contacts[j] in nodes ==> !nodes[contacts[j]].0.Background?
  }

  /** The fold of find_closest_wall: a contact replaces the best so far only when strictly closer. */
  function FindClosestWall(antPos: Vec3, contacts: seq<Entity>, nodes: NodeTable): (r: Option<Entity>)
    requires NoBackgroundContacts(contacts, nodes)
    ensures r.Some? ==> r.value in nodes && !nodes[r.value].0.Background?
  {
    if |contacts| == 0 then None
    else
      var prefix := contacts[..|contacts| - 1];
      assert forall j :: 0 <= j < |prefix| ==> prefix[j] == contacts[j];
      var closest := FindClosestWall(antPos, prefix, nodes);
      var e := contacts[|contacts| - 1];
      if e !in nodes then closest
      else if closest.None? then Some(e)
      else if Distance2(antPos, nodes[e].1) < Distance2(antPos, nodes[closest.value].1) then Some(e)
      else closest
  }

  /**
   * find_closest_wall finds nothing exactly when no contact is a nav node;
   * otherwise it finds the first contact at minimum distance.
   */
  lemma {:induction false} FindClosestWallIsFirstNearest(antPos: Vec3, contacts: seq<Entity>, nodes: NodeTable)
    requires NoBackgroundContacts(contacts, nodes)
    ensures var r := FindClosestWall(antPos, contacts, nodes);
      (r.None? <==> forall j :: 0 <= j < |contacts| ==> contacts[j] !in nodes) &&
      (r.Some? ==>
         exists k ::
           0 <= k < |contacts| && contacts[k] == r.value &&
           (forall j :: 0 <= j < |contacts| && contacts[j] in nodes ==>
              Distance2(antPos, nodes[r.value].1) <= Distance2(antPos, nodes[contacts[j]].1)) &&
           (forall j :: 0 <= j < k && contacts[j] in nodes ==>
              Distance2(antPos, nodes[contacts[j]].1) > Distance2(antPos, nodes[r.value].1)))
  {
    if |contacts| > 0 {
      var n := |contacts| - 1;
      var prefix := contacts[..n];
      assert forall j :: 0 <= j < |prefix| ==> prefix[j] == contacts[j];
      FindClosestWallIsFirstNearest(antPos, prefix, nodes);
      var closest := FindClosestWall(antPos, prefix, nodes);
      var e := contacts[n];
      var r := FindClosestWall(antPos, contacts, nodes);
      if e in nodes && (closest.None? || Distance2(antPos, nodes[e].1) < Distance2(antPos, nodes[closest.value].1)) {
        assert r == Some(e);
        if closest.Some? {
          var k :| 0 <= k < |prefix| && prefix[k] == closest.value &&
            (forall j :: 0 <= j < |prefix| && prefix[j] in nodes ==>
               Distance2(antPos, nodes[closest.value].1) <= Distance2(antPos, nodes[prefix[j]].1));
        }
        assert contacts[n] == r.value;
      } else if closest.Some? {
        var k :| 0 <= k < |prefix| && prefix[k] == closest.value &&
          (forall j :: 0 <= j < |prefix| && prefix[j] in nodes ==>
             Distance2(antPos, nodes[closest.value].1) <= Distance2(antPos, nodes[prefix[j]].1)) &&
          (forall j :: 0 <= j < k && prefix[j] in nodes ==>
             Distance2(antPos, nodes[prefix[j]].1) > Distance2(antPos, nodes[closest.value].1));
        assert contacts[k] == r.value;
      }
    }
  }

  // ---------------------------------------------------------------------
  // place_ant_on_*

  /** place_ant_on_horizontal_wall: adopt the wall, move to it in y, and rise to at least the clipping depth. */
  function OnHorizontalWall(s: AntState, isUpSide: bool, wallRel: Vec3, c: GameConstants): AntState
  {
    var offset := (c.antSize.y / 2.0 - c.antWallClipping) * (if isUpSide then -1.0 else 1.0);
    var t := s.translation;
    s.(kind := HorizontalWall(isUpSide),
       translation := Vec3(t.x, t.y + (wallRel.y + offset), if t.z < c.antWallClipping then c.antWallClipping else t.z))
  }

  /** place_ant_on_vertical_wall: adopt the wall, move to it in x, and rise to at least the clipping depth. */
  function OnVerticalWall(s: AntState, isLeftSide: bool, wallRel: Vec3, c: GameConstants): AntState
  {
    var offset := (c.antSize.x / 2.0 - c.antWallClipping) * (if isLeftSide then 1.0 else -1.0);
    var t := s.translation;
    s.(kind := VerticalWall(isLeftSide),
       translation := Vec3(t.x + (wallRel.x + offset), t.y, if t.z < c.antWallClipping then c.antWallClipping else t.z))
  }

  /** place_ant_on_background: adopt the background at depth 0. */
  function OnBackground(s: AntState): AntState
  {
    s.(kind := AntPositionKind.Background, translation := s.translation.(z := 0.0))
  }

  /** Placing on a wall sets the kind, keeps the other axis and leaves z at or above the clipping depth. */
  lemma PlacementFacts(s: AntState, side: bool, wallRel: Vec3, c: GameConstants)
    ensures var h := OnHorizontalWall(s, side, wallRel, c);
      h.kind == HorizontalWall(side) && h.translation.x == s.translation.x &&
      h.translation.z >= c.antWallClipping && h.translation.z >= s.translation.z &&
      h.currentNode == s.currentNode && h.direction == s.direction
    ensures var v := OnVerticalWall(s, side, wallRel, c);
      v.kind == VerticalWall(side) && v.translation.y == s.translation.y &&
      v.translation.z >= c.antWallClipping && v.translation.z >= s.translation.z &&
      v.currentNode == s.currentNode && v.direction == s.direction
    ensures OnBackground(s).kind == AntPositionKind.Background && OnBackground(s).translation.z == 0.0
    ensures OnBackground(OnBackground(s)) == OnBackground(s)
  {
  }

  method PlaceAntOnHorizontalWall(isUpSide: bool, ant: AntMovement, transform: Transform, wallRel: Vec3, c: GameConstants)
    modifies ant`positionKind, transform`translation
    ensures StateOf(ant, transform) == OnHorizontalWall(old(StateOf(ant, transform)), isUpSide, wallRel, c)
  {
    ant.positionKind := HorizontalWall(isUpSide);
    var offset := (c.antSize.y / 2.0 - c.antWallClipping) * (if isUpSide then -1.0 else 1.0);
    transform.translation := transform.translation.(y := transform.translation.y + (wallRel.y + offset));
    if transform.translation.z < c.antWallClipping {
      transform.translation := transform.translation.(z := c.antWallClipping);
    }
  }

  method PlaceAntOnVerticalWall(isLeftSide: bool, ant: AntMovement, transform: Transform, wallRel: Vec3, c: GameConstants)
    modifies ant`positionKind, transform`translation
    ensures StateOf(ant, transform) == OnVerticalWall(old(StateOf(ant, transform)), isLeftSide, wallRel, c)
  {
    ant.positionKind := VerticalWall(isLeftSide);
    var offset := (c.antSize.x / 2.0 - c.antWallClipping) * (if isLeftSide then 1.0 else -1.0);
    transform.translation := transform.translation.(x := transform.translation.x + (wallRel.x + offset));
    if transform.translation.z < c.antWallClipping {
      transform.translation := transform.translation.(z := c.antWallClipping);
    }
  }

  method PlaceAntOnBackground(ant: AntMovement, transform: Transform)
    modifies ant`positionKind, transform`translation
    ensures StateOf(ant, transform) == OnBackground(old(StateOf(ant, transform)))
  {
    ant.positionKind := AntPositionKind.Background;
    transform.translation := transform.translation.(z := 0.0);
  }

  // ---------------------------------------------------------------------
  // update_ant_position_kinds

  /** The state after attaching to node e of the table. */
  function Attach(s: AntState, e: Entity, nodes: NodeTable): AntState
    requires e in nodes
  {
    s.(currentNode := e, currentNodePos := nodes[e].1)
  }

  /** An ant on a wall turning an outward corner: the link it follows. */
  function CornerLink(s: AntState, nodes: NodeTable): Option<Entity>
    requires s.currentNode in nodes
  {
    match nodes[s.currentNode].0
    case HorizontalEdge(maybeLeft, maybeRight, _, _) => if s.direction.x > 0.0 then maybeRight else maybeLeft
    case VerticalEdge(up, down, _, _) => Some(if s.direction.y < 0.0 then down else up)
    case Background(_, _, _, _) => None
  }

  /** The ant turns an outward corner: it is on a wall above the clipping depth and touches nothing. */
  predicate TurnsCorner(s: AntState, contacts: seq<Entity>, c: GameConstants)
  {
    !s.kind.Background? && s.translation.z > c.antWallClipping && |contacts| == 0
  }

  /**
   * What the source unwraps or declares unreachable: no contact is a
   * Background node when the contacts are searched, the current node of a
   * wall ant is an edge of the right variant when it is read, and the corner
   * link exists.
   */
  predicate WallStepDemands(s: AntState, contacts: seq<Entity>, nodes: NodeTable, c: GameConstants)
  {
    ((s.kind.Background? || s.translation.z > c.antWallClipping) ==> NoBackgroundContacts(contacts, nodes)) &&
    (s.kind.HorizontalWall? && s.translation.z <= c.antWallClipping ==>
       s.currentNode in nodes && nodes[s.currentNode].0.HorizontalEdge?) &&
    (TurnsCorner(s, contacts, c) ==>
       s.currentNode in nodes && Agrees(s.kind, nodes[s.currentNode].0) &&
       CornerLink(s, nodes).Some? && CornerLink(s, nodes).value in nodes)
  }

  /** The surface transitions of update_ant_position_kinds for one ant. */
  function WallStep(s: AntState, contacts: seq<Entity>, antGlobal: Vec3, nodes: NodeTable, c: GameConstants): AntState
    requires WallStepDemands(s, contacts, nodes, c)
  {
    var clip := c.antWallClipping;
    match s.kind
    case Background =>
      (match FindClosestWall(antGlobal, contacts, nodes)
       case None => s
       case Some(e) =>
         var node := nodes[e].0;
         var rel := Relative(nodes[e].1, antGlobal);
         if node.HorizontalEdge? then
           Attach(OnHorizontalWall(s, node.isUpSide, rel, c).(direction := s.direction.(z := 1.0)), e, nodes)
         else
           Attach(OnVerticalWall(s, node.isLeftSide, rel, c).(direction := s.direction.(z := 1.0)), e, nodes))
    case HorizontalWall(isUpSide) =>
      if s.translation.z <= clip then
        if nodes[s.currentNode].0.maybeBack.Some? then
          var t := s.translation;
          OnBackground(s.(translation := t.(y := t.y + (if isUpSide then -2.0 * clip else 2.0 * clip)),
                          direction := s.direction.(y := if isUpSide then -1.0 else 1.0)))
        else
          s.(translation := s.translation.(z := 0.0))
      else if FindClosestWall(antGlobal, contacts, nodes).Some? then
        var e := FindClosestWall(antGlobal, contacts, nodes).value;
        var node := nodes[e].0;
        if node.VerticalEdge? then Attach(OnVerticalWall(s, node.isLeftSide, Relative(nodes[e].1, antGlobal), c), e, nodes)
        else Attach(s, e, nodes)
      else if |contacts| == 0 then
        var newLeft := s.direction.x > 0.0;
        var nb := CornerLink(s, nodes).value;
        var wall := nodes[nb].0;
        if wall.VerticalEdge? && wall.isLeftSide == newLeft then
          Attach(OnVerticalWall(s, newLeft, Relative(nodes[nb].1, antGlobal), c), nb, nodes)
        else
          Attach(s, nb, nodes)
      else s
    case VerticalWall(isLeftSide) =>
      if s.translation.z <= clip then
        var t := s.translation;
        OnBackground(OnBackground(s.(translation := t.(x := t.x + (if isLeftSide then 2.0 * clip else -2.0 * clip)),
                                     direction := s.direction.(x := if isLeftSide then 1.0 else -1.0))))
      else if FindClosestWall(antGlobal, contacts, nodes).Some? then
        var e := FindClosestWall(antGlobal, contacts, nodes).value;
        var node := nodes[e].0;
        if node.HorizontalEdge? then Attach(OnHorizontalWall(s, node.isUpSide, Relative(nodes[e].1, antGlobal), c), e, nodes)
        else Attach(s, e, nodes)
      else if |contacts| == 0 then
        var newUp := s.direction.y < 0.0;
        var nb := CornerLink(s, nodes).value;
        var wall := nodes[nb].0;
        if wall.HorizontalEdge? && wall.isUpSide == newUp then
          Attach(OnHorizontalWall(s, newUp, Relative(nodes[nb].1, antGlobal), c), nb, nodes)
        else
          Attach(s, nb, nodes)
      else s
  }

  /** The outcome of one ant's update: its new state, and its new material unless the frame skipped it. */
  datatype KindOutcome = KindOutcome(state: AntState, material: Option<RenderAnt.MaterialHandle>)

  /** The lookup get_tile_entity, as written, indexes past the table at t (a panic). */
  predicate TileLookupPanics(lut: NavMeshLut, t: Vec3, c: GameConstants)
    requires lut.Valid() && c.tileSize > 0.0
  {
    GetTileEntityAsWritten(lut, Vec2(t.x, t.y), c.tileSize).IndexOutOfBounds?
  }

  /**
   * The tile entity under a point, by get_tile_entity as written (the one
   * the systems call): outside the closed map rectangle there is none, inside
   * the tiled part it is the empty tile containing the point, and on the
   * right border it is whatever tile the index lands on.
   */
  function TileUnder(lut: NavMeshLut, t: Vec3, c: GameConstants): (r: Option<Entity>)
    requires lut.Valid() && c.tileSize > 0.0 && !TileLookupPanics(lut, t, c)
    ensures !InClosedMap(lut, Vec2(t.x, t.y), c.tileSize) ==> r.None?
    ensures InMap(lut, Vec2(t.x, t.y), c.tileSize) ==>
      (r.Some? <==> GetTileEntity(lut, Vec2(t.x, t.y), c.tileSize).Some?) &&
      (r.Some? ==> r.value == GetTileEntity(lut, Vec2(t.x, t.y), c.tileSize).value.0)
    ensures r.Some? ==> exists index :: 0 <= index < |lut.gridIsEmpty| && lut.gridIsEmpty[index] &&
                                        r.value == lut.gridEntity[index]
  {
    var pos := Vec2(t.x, t.y);
    assert InMap(lut, pos, c.tileSize) ==>
             GetTileEntityAsWritten(lut, pos, c.tileSize) ==
             (match GetTileEntity(lut, pos, c.tileSize) case Some((e, i)) => Found(e, i) case None => Missing) by {
      if InMap(lut, pos, c.tileSize) {
        GetTileEntityAgrees(lut, pos, c.tileSize);
      }
    }
    match GetTileEntityAsWritten(lut, pos, c.tileSize)
    case Found(e, index) => assert lut.gridEntity[index] == e; Some(e)
    case Missing => None
  }

  /**
   * A background point on the right border of the top row of a 2 x 2 map
   * gets the first tile of the second row, which does not contain it.
   */
  lemma RightBorderTileUnder(z: real, c: GameConstants)
    requires c.tileSize == 1.0
    ensures var lut := NavMeshLut([10, 11, 12, 13], [], [true, true, true, true], 2, 2);
      !TileLookupPanics(lut, Vec3(2.0, 1.5, z), c) && TileUnder(lut, Vec3(2.0, 1.5, z), c) == Some(12) &&
      !GetTileEntity(lut, Vec2(2.0, 1.5), c.tileSize).Some?
  {
    RightBorderFindsWrongTile();
  }

  /** A point on the bottom border of a 1 x 1 map makes the lookup panic. */
  lemma BottomBorderTileLookupPanics(x: real, z: real, c: GameConstants)
    requires c.tileSize == 1.0 && 0.0 <= x <= 1.0
    ensures TileLookupPanics(NavMeshLut([7], [NavMesh.TileEdges(None, None, None, None)], [true], 1, 1), Vec3(x, 0.0, z), c)
  {
    var lut := NavMeshLut([7], [NavMesh.TileEdges(None, None, None, None)], [true], 1, 1);
    assert RowFromTop(lut, Vec2(x, 0.0), 1.0) == 1;
    assert Column(Vec2(x, 0.0), 1.0) <= 1;
  }

  /**
   * Besides the wall-step demands: for a background ant the lookup does not
   * index past the table (as it does on the bottom border), and the tile it
   * finds is a Background node (asserted).
   */
  predicate KindStepDemands(s: AntState, contacts: seq<Entity>, antGlobal: Vec3, nodes: NodeTable, lut: NavMeshLut,
                            c: GameConstants)
  {
    lut.Valid() && c.tileSize > 0.0 && WallStepDemands(s, contacts, nodes, c) &&
    var r := WallStep(s, contacts, antGlobal, nodes, c);
    (r.kind.Background? ==> !TileLookupPanics(lut, r.translation, c)) &&
    (r.kind.Background? && TileUnder(lut, r.translation, c).Some? ==>
       TileUnder(lut, r.translation, c).value in nodes && nodes[TileUnder(lut, r.translation, c).value].0.Background?)
  }

  /**
   * One ant's frame of update_ant_position_kinds: the surface transition,
   * then, for a background ant, the tile under it becomes its node (when
   * there is none the rest of the frame is skipped), then the material.
   */
  function KindStep(s: AntState, contacts: seq<Entity>, antGlobal: Vec3, nodes: NodeTable, lut: NavMeshLut,
                    c: GameConstants): KindOutcome
    requires KindStepDemands(s, contacts, antGlobal, nodes, lut, c)
  {
    var r := WallStep(s, contacts, antGlobal, nodes, c);
    if r.kind.Background? then
      match TileUnder(lut, r.translation, c)
      case None => KindOutcome(r, None)
      case Some(e) => KindOutcome(Attach(r, e, nodes), Some(RenderAnt.Top))
    else KindOutcome(r, Some(RenderAnt.Side))
  }

  method BackgroundKindUpdate(ant: AntMovement, contacts: seq<Entity>, antGlobal: Vec3, transform: Transform,
                              nodes: NodeTable, c: GameConstants)
    requires ant.positionKind.Background? && WallStepDemands(StateOf(ant, transform), contacts, nodes, c)
    modifies ant`positionKind, ant`direction, ant`currentNode, ant`currentNodePos, transform`translation
    ensures StateOf(ant, transform) == WallStep(old(StateOf(ant, transform)), contacts, antGlobal, nodes, c)
  {
    var closest := FindClosestWall(antGlobal, contacts, nodes);
    if closest.Some? {
      var e := closest.value;
      var (node, wallGlobal) := nodes[e];
      var rel := Relative(wallGlobal, antGlobal);
      match node
      case HorizontalEdge(_, _, _, isUpSide) =>
        PlaceAntOnHorizontalWall(isUpSide, ant, transform, rel, c);
        ant.direction := ant.direction.(z := 1.0);
        ant.currentNode, ant.currentNodePos := e, wallGlobal;
      case VerticalEdge(_, _, _, isLeftSide) =>
        PlaceAntOnVerticalWall(isLeftSide, ant, transform, rel, c);
        ant.direction := ant.direction.(z := 1.0);
        ant.currentNode, ant.currentNodePos := e, wallGlobal;
    }
  }

  method HorizontalKindUpdate(ant: AntMovement, contacts: seq<Entity>, antGlobal: Vec3, transform: Transform,
                              nodes: NodeTable, c: GameConstants)
    requires ant.positionKind.HorizontalWall? && WallStepDemands(StateOf(ant, transform), contacts, nodes, c)
    modifies ant`positionKind, ant`direction, ant`currentNode, ant`currentNodePos, transform`translation
    ensures StateOf(ant, transform) == WallStep(old(StateOf(ant, transform)), contacts, antGlobal, nodes, c)
  {
    var isUpSide := ant.positionKind.isUpSide;
    if transform.translation.z <= c.antWallClipping {
      var back := nodes[ant.currentNode].0.maybeBack;
      if back.Some? {
        transform.translation := transform.translation.(
          y := transform.translation.y + (if isUpSide then -2.0 * c.antWallClipping else 2.0 * c.antWallClipping));
        ant.direction := ant.direction.(y := if isUpSide then -1.0 else 1.0);
        PlaceAntOnBackground(ant, transform);
      } else {
        transform.translation := transform.translation.(z := 0.0);
      }
    } else {
      var closest := FindClosestWall(antGlobal, contacts, nodes);
      if closest.Some? {
        var e := closest.value;
        var (node, wallGlobal) := nodes[e];
        if node.VerticalEdge? {
          PlaceAntOnVerticalWall(node.isLeftSide, ant, transform, Relative(wallGlobal, antGlobal), c);
        }
        ant.currentNode, ant.currentNodePos := e, wallGlobal;
      } else if |contacts| == 0 {
        var newWallIsLeftSide := ant.direction.x > 0.0;
        var currentWall := nodes[ant.currentNode].0;
        var neighbor := if newWallIsLeftSide then currentWall.maybeRight else currentWall.maybeLeft;
        var wallEntity := neighbor.value;
        var (wallNode, wallGlobal) := nodes[wallEntity];
        if !(wallNode.VerticalEdge? && wallNode.isLeftSide == newWallIsLeftSide) {
          ant.currentNode, ant.currentNodePos := wallEntity, wallGlobal;
        } else {
          PlaceAntOnVerticalWall(newWallIsLeftSide, ant, transform, Relative(wallGlobal, antGlobal), c);
          ant.currentNode, ant.currentNodePos := wallEntity, wallGlobal;
        }
      }
    }
  }

  method VerticalKindUpdate(ant: AntMovement, contacts: seq<Entity>, antGlobal: Vec3, transform: Transform,
                            nodes: NodeTable, c: GameConstants)
    requires ant.positionKind.VerticalWall? && WallStepDemands(StateOf(ant, transform), contacts, nodes, c)
    modifies ant`positionKind, ant`direction, ant`currentNode, ant`currentNodePos, transform`translation
    ensures StateOf(ant, transform) == WallStep(old(StateOf(ant, transform)), contacts, antGlobal, nodes, c)
  {
    var isLeftSide := ant.positionKind.isLeftSide;
    if transform.translation.z <= c.antWallClipping {
      transform.translation := transform.translation.(
        x := transform.translation.x + (if isLeftSide then 2.0 * c.antWallClipping else -2.0 * c.antWallClipping));
      ant.direction := ant.direction.(x := if isLeftSide then 1.0 else -1.0);
      PlaceAntOnBackground(ant, transform);
      PlaceAntOnBackground(ant, transform);
    } else {
      var closest := FindClosestWall(antGlobal, contacts, nodes);
      if closest.Some? {
        var e := closest.value;
        var (node, wallGlobal) := nodes[e];
        if node.HorizontalEdge? {
          PlaceAntOnHorizontalWall(node.isUpSide, ant, transform, Relative(wallGlobal, antGlobal), c);
        }
        ant.currentNode, ant.currentNodePos := e, wallGlobal;
      } else if |contacts| == 0 {
        var newWallIsUpSide := ant.direction.y < 0.0;
        var currentWall := nodes[ant.currentNode].0;
        var wallEntity := if newWallIsUpSide then currentWall.down else currentWall.up;
        var (wallNode, wallGlobal) := nodes[wallEntity];
        if !(wallNode.HorizontalEdge? && wallNode.isUpSide == newWallIsUpSide) {
          ant.currentNode, ant.currentNodePos := wallEntity, wallGlobal;
        } else {
          PlaceAntOnHorizontalWall(newWallIsUpSide, ant, transform, Relative(wallGlobal, antGlobal), c);
          ant.currentNode, ant.currentNodePos := wallEntity, wallGlobal;
        }
      }
    }
  }

  /**
   * update_ant_position_kinds for one ant: the new state is KindStep's, and
   * the material is replaced unless the frame was skipped.
   */
  method UpdateAntPositionKind(ant: AntMovement, contacts: seq<Entity>, antGlobal: Vec3, transform: Transform,
                               nodes: NodeTable, lut: NavMeshLut, c: GameConstants, material: RenderAnt.MaterialHandle)
    returns (newMaterial: RenderAnt.MaterialHandle)
    requires KindStepDemands(StateOf(ant, transform), contacts, antGlobal, nodes, lut, c)
    modifies ant`positionKind, ant`direction, ant`currentNode, ant`currentNodePos, transform`translation
    ensures var out := KindStep(old(StateOf(ant, transform)), contacts, antGlobal, nodes, lut, c);
      StateOf(ant, transform) == out.state &&
      newMaterial == (if out.material.Some? then out.material.value else material)
  {
    match ant.positionKind {
      case Background =>
        BackgroundKindUpdate(ant, contacts, antGlobal, transform, nodes, c);
      case HorizontalWall(_) =>
        HorizontalKindUpdate(ant, contacts, antGlobal, transform, nodes, c);
      case VerticalWall(_) =>
        VerticalKindUpdate(ant, contacts, antGlobal, transform, nodes, c);
    }
    newMaterial := material;
    if ant.positionKind.Background? {
      var tile := TileUnder(lut, transform.translation, c);
      if tile.None? {
        return;
      }
      var backgroundEntity := tile.value;
      ant.currentNode, ant.currentNodePos := backgroundEntity, nodes[backgroundEntity].1;
    }
    newMaterial := if ant.positionKind.Background? then RenderAnt.Top else RenderAnt.Side;
  }

  /** The kind of an ant, with its side, matches a node of the same variant and side. */
  predicate OnSide(kind: AntPositionKind, node: Node)
  {
    match kind
    case Background => node.Background?
    case VerticalWall(isLeftSide) => node.VerticalEdge? && node.isLeftSide == isLeftSide
    case HorizontalWall(isUpSide) => node.HorizontalEdge? && node.isUpSide == isUpSide
  }

  /**
   * What one frame guarantees: the top material goes with a background ant
   * attached to a background tile, the side material with a wall ant, a
   * skipped frame with a background ant and no tile under it; an ant that
   * changes surface adopts a node of the new surface on the right side; an
   * ant turning a corner adopts the corner's link.
   */
  lemma KindStepFacts(s: AntState, contacts: seq<Entity>, antGlobal: Vec3, nodes: NodeTable, lut: NavMeshLut,
                      c: GameConstants)
    requires KindStepDemands(s, contacts, antGlobal, nodes, lut, c)
    ensures var out := KindStep(s, contacts, antGlobal, nodes, lut, c);
      var w := WallStep(s, contacts, antGlobal, nodes, c);
      (out.material == Some(RenderAnt.Top) <==> out.state.kind.Background? && TileUnder(lut, w.translation, c).Some?) &&
      (out.material == Some(RenderAnt.Top) ==> out.state.currentNode in nodes && OnSide(out.state.kind, nodes[out.state.currentNode].0)) &&
      (out.material == Some(RenderAnt.Side) <==> !out.state.kind.Background?) &&
      (out.material.None? ==> out.state == w) &&
      out.state.kind == w.kind && out.state.translation == w.translation && out.state.direction == w.direction
    ensures var w := WallStep(s, contacts, antGlobal, nodes, c);
      (w.kind != s.kind && !w.kind.Background? ==> w.currentNode in nodes && OnSide(w.kind, nodes[w.currentNode].0)) &&
      (TurnsCorner(s, contacts, c) ==> w.currentNode == CornerLink(s, nodes).value)
  {
  }

  /**
   * Leaving a wall: a horizontal-wall ant at or below the clipping depth
   * drops to the background, pushed 2 clipping depths away and heading away
   * from the wall, when the edge has a background behind it, and only sinks
   * to depth 0 otherwise; a vertical-wall ant at that depth always drops.
   */
  lemma LeavingWall(s: AntState, contacts: seq<Entity>, antGlobal: Vec3, nodes: NodeTable, c: GameConstants)
    requires WallStepDemands(s, contacts, nodes, c)
    requires !s.kind.Background? && s.translation.z <= c.antWallClipping
    ensures var w := WallStep(s, contacts, antGlobal, nodes, c);
      var clip := c.antWallClipping;
      w.translation.z == 0.0 && w.currentNode == s.currentNode &&
      (s.kind.HorizontalWall? ==>
         (nodes[s.currentNode].0.maybeBack.Some? <==> w.kind.Background?) &&
         (w.kind.Background? ==>
            w.translation.y == s.translation.y + (if s.kind.isUpSide then -2.0 * clip else 2.0 * clip) &&
            w.direction.y == (if s.kind.isUpSide then -1.0 else 1.0)) &&
         (!w.kind.Background? ==> w.kind == s.kind && w.translation.y == s.translation.y)) &&
      (s.kind.VerticalWall? ==>
         w.kind.Background? &&
         w.translation.x == s.translation.x + (if s.kind.isLeftSide then 2.0 * clip else -2.0 * clip) &&
         w.direction.x == (if s.kind.isLeftSide then 1.0 else -1.0))
  {
  }

  // ---------------------------------------------------------------------
  // assert_ants

  /** The ants (entity, kind, current node) whose kind disagrees with their node, in query order. */
  function Misplaced(ants: seq<(Entity, AntPositionKind, Entity)>, nodes: NodeTable): seq<Entity>
    requires forall k :: 0 <= k < |ants| ==> ants[k].2 in nodes
  {
    if |ants| == 0 then []
    else
      var n := |ants| - 1;
      assert forall k :: 0 <= k < n ==> ants[..n][k] == ants[k];
      Misplaced(ants[..n], nodes) + (if Agrees(ants[n].1, nodes[ants[n].2].0) then [] else [ants[n].0])
  }

  /** Exactly the ants whose kind disagrees with their node are despawned. */
  lemma {:induction false} MisplacedExactly(ants: seq<(Entity, AntPositionKind, Entity)>, nodes: NodeTable, e: Entity)
    requires forall k :: 0 <= k < |ants| ==> ants[k].2 in nodes
    ensures e in Misplaced(ants, nodes) <==>
      exists k :: 0 <= k < |ants| && ants[k].0 == e && !Agrees(ants[k].1, nodes[ants[k].2].0)
    ensures |Misplaced(ants, nodes)| <= |ants|
  {
    if |ants| > 0 {
      var n := |ants| - 1;
      var prefix := ants[..n];
      assert forall k :: 0 <= k < n ==> prefix[k] == ants[k];
      MisplacedExactly(prefix, nodes, e);
      if e in Misplaced(ants, nodes) && e !in Misplaced(prefix, nodes) {
        assert ants[n].0 == e;
      }
    }
  }

  /**
   * assert_ants: every ant's current node must exist (it is unwrapped); the
   * ants whose kind disagrees with it are despawned, and the flag says
   * whether there were none.
   */
  method AssertAnts(ants: seq<(Entity, AntPositionKind, Entity)>, nodes: NodeTable)
    returns (despawned: seq<Entity>, allOk: bool)
    requires forall k :: 0 <= k < |ants| ==> ants[k].2 in nodes
    ensures despawned == Misplaced(ants, nodes)
    ensures allOk <==> |despawned| == 0
  {
    despawned := [];
    allOk := true;
    var i := 0;
    while i < |ants|
      invariant 0 <= i <= |ants|
      invariant despawned == Misplaced(ants[..i], nodes)
      invariant allOk <==> |despawned| == 0
    {
      var (entity, kind, current) := ants[i];
      assert ants[..i + 1][..i] == ants[..i];
      if !Agrees(kind, nodes[current].0) {
        allOk := false;
        despawned := despawned + [entity];
      }
      i := i + 1;
    }
    assert ants[..i] == ants;
  }

  // ---------------------------------------------------------------------
  // update_ant_position

  /** The time step of one ant: capped so that it covers at most a quarter tile (no cap at speed 0, where the bound is infinite). */
  function EffectiveDt(dt: real, speed: real, c: GameConstants): real
  {
    if speed == 0.0 then dt else Min(dt, c.tileSize / 4.0 / speed)
  }

  /** The plane of the direction an ant moves in: xy on the background, yz on a vertical wall, xz on a horizontal one. */
  function Plane(kind: AntPositionKind, direction: Vec3): Vec2
  {
    match kind
    case Background => Vec2(direction.x, direction.y)
    case VerticalWall(_) => Vec2(direction.y, direction.z)
    case HorizontalWall(_) => Vec2(direction.x, direction.z)
  }

  /** `normalize_or_zero`: u is the unit vector along v, or zero when v is zero. */
  predicate NormalizedOrZero(v: Vec2, u: Vec2)
  {
    if v == ZERO2 then u == ZERO2
    else u.x * u.x + u.y * u.y == 1.0 && u.x * v.y == u.y * v.x && u.x * v.x + u.y * v.y > 0.0
  }

  /**
   * One ant's move before clamping, with a = speed times the time step: on
   * the background along its xy direction; on a wall along the wall at full
   * speed in the sign of the direction and in depth by the projection,
   * capped at the wall height.
   */
  function Moved(kind: AntPositionKind, direction: Vec3, t: Vec3, unit: Vec2, a: real, c: GameConstants): Vec3
  {
    var cap := c.wallZFactor * c.tileSize;
    match kind
    case Background => Vec3(t.x + unit.x * a, t.y + unit.y * a, t.z)
    case VerticalWall(_) =>
      var z := t.z + unit.y * a;
      Vec3(t.x, t.y + Signum(direction.y) * a, if z > cap then cap else z)
    case HorizontalWall(_) =>
      var z := t.z + unit.y * a;
      Vec3(t.x + Signum(direction.x) * a, t.y, if z > cap then cap else z)
  }

  /** The distance an ant covers in one frame: its speed times its capped time step. */
  function StepLength(dt: real, speed: real, c: GameConstants): real
  {
    speed * EffectiveDt(dt, speed, c)
  }

  /** One ant's move by a step of length a, then x and y clamped to the map. */
  function MoveStep(kind: AntPositionKind, direction: Vec3, t: Vec3, unit: Vec2, a: real,
                    mapWidth: real, mapHeight: real, c: GameConstants): Vec3
    requires 0.0 <= mapWidth && 0.0 <= mapHeight
  {
    var moved := Moved(kind, direction, t, unit, a, c);
    Vec3(Clamp(moved.x, 0.0, mapWidth), Clamp(moved.y, 0.0, mapHeight), moved.z)
  }

  /** For a positive speed and time step, the step covers at most a quarter tile and takes no longer than the frame. */
  lemma EffectiveDtBounds(dt: real, speed: real, c: GameConstants)
    requires c.tileSize > 0.0 && speed > 0.0 && dt >= 0.0
    ensures 0.0 <= EffectiveDt(dt, speed, c) <= dt
    ensures 0.0 <= StepLength(dt, speed, c) <= c.tileSize / 4.0
  {
    var d := EffectiveDt(dt, speed, c);
    var cap := c.tileSize / 4.0 / speed;
    assert speed * cap == c.tileSize / 4.0;
    if dt <= cap {
      assert speed * dt <= speed * cap;
    }
  }

  /** Clamping a point into an interval that holds the start never moves it farther away. */
  lemma ClampCloser(x: real, start: real, lo: real, hi: real, r: real)
    requires lo <= start <= hi && r == Clamp(x, lo, hi)
    ensures (r - start) * (r - start) <= (x - start) * (x - start)
  {
    var p := r - start;
    var q := x - start;
    if q >= 0.0 {
      assert 0.0 <= p <= q;
      assert p * p <= p * q <= q * q;
    } else {
      assert q <= p <= 0.0;
      assert p * p <= p * q <= q * q;
    }
  }

  /** A normalized-or-zero vector has length at most 1. */
  lemma UnitAtMostOne(v: Vec2, u: Vec2)
    requires NormalizedOrZero(v, u)
    ensures u.x * u.x + u.y * u.y <= 1.0
  {
  }

  /** A vector of length at most 1 scaled by a in [0, q] has squared length at most q squared. */
  lemma ScaledAtMost(u: Vec2, a: real, q: real, dx: real, dy: real)
    requires u.x * u.x + u.y * u.y <= 1.0 && 0.0 <= a <= q
    requires dx == u.x * a && dy == u.y * a
    ensures dx * dx + dy * dy <= q * q
  {
    assert dx * dx + dy * dy == (u.x * u.x + u.y * u.y) * (a * a);
    assert a * a <= a * q <= q * q;
    assert (u.x * u.x + u.y * u.y) * (a * a) <= a * a;
  }

  /** The ant stays in the map, the axis normal to its surface is only clamped, and a wall ant stays below the wall height. */
  lemma MoveStepBounds(kind: AntPositionKind, direction: Vec3, t: Vec3, unit: Vec2, a: real,
                       mapWidth: real, mapHeight: real, c: GameConstants)
    requires 0.0 <= mapWidth && 0.0 <= mapHeight
    ensures var r := MoveStep(kind, direction, t, unit, a, mapWidth, mapHeight, c);
      0.0 <= r.x <= mapWidth && 0.0 <= r.y <= mapHeight &&
      (kind.Background? ==> r.z == t.z) &&
      (kind.VerticalWall? ==> r.x == Clamp(t.x, 0.0, mapWidth) && r.z <= c.wallZFactor * c.tileSize) &&
      (kind.HorizontalWall? ==> r.y == Clamp(t.y, 0.0, mapHeight) && r.z <= c.wallZFactor * c.tileSize)
  {
  }

  /** A planar step of length at most q from a point in a rectangle, clamped back into it, still has length at most q. */
  lemma ClampedPlanarStep(t: Vec3, m: Vec3, width: real, height: real, q: real)
    requires 0.0 <= t.x <= width && 0.0 <= t.y <= height && Distance2(m, t) <= q * q
    ensures Distance2(Vec3(Clamp(m.x, 0.0, width), Clamp(m.y, 0.0, height), m.z), t) <= q * q
  {
    ClampCloser(m.x, t.x, 0.0, width, Clamp(m.x, 0.0, width));
    ClampCloser(m.y, t.y, 0.0, height, Clamp(m.y, 0.0, height));
  }

  /** The squared distance of a displacement by (dx, dy). */
  lemma Distance2Of(m: Vec3, t: Vec3, dx: real, dy: real)
    requires m.x == t.x + dx && m.y == t.y + dy
    ensures Distance2(m, t) == dx * dx + dy * dy
  {
    assert m.x - t.x == dx && m.y - t.y == dy;
  }

  /** A background step of length a in [0, q] along a vector of length at most 1, clamped into the map, has length at most q. */
  lemma BackgroundStepWithin(direction: Vec3, t: Vec3, unit: Vec2, a: real, q: real, width: real, height: real,
                             c: GameConstants)
    requires unit.x * unit.x + unit.y * unit.y <= 1.0 && 0.0 <= a <= q
    requires 0.0 <= t.x <= width && 0.0 <= t.y <= height
    ensures var m := Moved(AntPositionKind.Background, direction, t, unit, a, c);
      Distance2(Vec3(Clamp(m.x, 0.0, width), Clamp(m.y, 0.0, height), m.z), t) <= q * q
  {
    var m := Moved(AntPositionKind.Background, direction, t, unit, a, c);
    ScaledAtMost(unit, a, q, unit.x * a, unit.y * a);
    Distance2Of(m, t, unit.x * a, unit.y * a);
    ClampedPlanarStep(t, m, width, height, q);
  }

  /**
   * From a point in the map, a positive-speed step on the background along a
   * vector of length at most 1 (as a normalized-or-zero direction is) moves
   * the ant at most a quarter tile.
   */
  lemma MoveStepLength(direction: Vec3, speed: real, t: Vec3, unit: Vec2, dt: real,
                       mapWidth: real, mapHeight: real, c: GameConstants)
    requires 0.0 <= mapWidth && 0.0 <= mapHeight && c.Valid()
    requires unit.x * unit.x + unit.y * unit.y <= 1.0
    requires speed > 0.0 && dt >= 0.0 && 0.0 <= t.x <= mapWidth && 0.0 <= t.y <= mapHeight
    ensures var r := MoveStep(AntPositionKind.Background, direction, t, unit, StepLength(dt, speed, c), mapWidth, mapHeight, c);
      Distance2(r, t) <= (c.tileSize / 4.0) * (c.tileSize / 4.0)
  {
    EffectiveDtBounds(dt, speed, c);
    BackgroundStepWithin(direction, t, unit, StepLength(dt, speed, c), c.tileSize / 4.0, mapWidth, mapHeight, c);
  }

  /** From a point in the map, a positive-speed step on a wall moves the ant at most a quarter tile along the wall and not at all across it. */
  lemma MoveStepAlongWall(kind: AntPositionKind, direction: Vec3, speed: real, t: Vec3, unit: Vec2, dt: real,
                          mapWidth: real, mapHeight: real, c: GameConstants)
    requires 0.0 <= mapWidth && 0.0 <= mapHeight && c.Valid() && !kind.Background?
    requires speed > 0.0 && dt >= 0.0 && 0.0 <= t.x <= mapWidth && 0.0 <= t.y <= mapHeight
    ensures var r := MoveStep(kind, direction, t, unit, StepLength(dt, speed, c), mapWidth, mapHeight, c);
      var q := c.tileSize / 4.0;
      (kind.VerticalWall? ==> r.x == t.x && -q <= r.y - t.y <= q) &&
      (kind.HorizontalWall? ==> r.y == t.y && -q <= r.x - t.x <= q)
  {
    EffectiveDtBounds(dt, speed, c);
  }

  /** The map extent along one axis: a tile dimension times the grid dimension, in whole units. */
  function Extent(tile: nat, grid: nat): nat
  {
    tile * grid
  }

  /** The background part of update_ant_position, for a step of length a. */
  method MoveOnBackground(direction: Vec3, transform: Transform, unit: Vec2, a: real, c: GameConstants)
    modifies transform`translation
    ensures transform.translation == Moved(AntPositionKind.Background, direction, old(transform.translation), unit, a, c)
  {
    var delta := Vec2(unit.x * a, unit.y * a);
    transform.translation := transform.translation.(x := transform.translation.x + delta.x);
    transform.translation := transform.translation.(y := transform.translation.y + delta.y);
  }

  /** The vertical-wall part of update_ant_position: full speed along y, the projection in z, capped at the wall height. */
  method MoveOnVerticalWall(kind: AntPositionKind, direction: Vec3, transform: Transform, unit: Vec2, a: real,
                            c: GameConstants)
    requires kind.VerticalWall?
    modifies transform`translation
    ensures transform.translation == Moved(kind, direction, old(transform.translation), unit, a, c)
  {
    var cap := c.wallZFactor * c.tileSize;
    var deltaYz := Vec2(unit.x * a, unit.y * a);
    var deltaY := Signum(direction.y) * a;
    transform.translation := transform.translation.(y := transform.translation.y + deltaY);
    transform.translation := transform.translation.(z := transform.translation.z + deltaYz.y);
    if transform.translation.z > cap {
      transform.translation := transform.translation.(z := cap);
    }
  }

  /** The horizontal-wall part of update_ant_position: full speed along x, the projection in z, capped at the wall height. */
  method MoveOnHorizontalWall(kind: AntPositionKind, direction: Vec3, transform: Transform, unit: Vec2, a: real,
                              c: GameConstants)
    requires kind.HorizontalWall?
    modifies transform`translation
    ensures transform.translation == Moved(kind, direction, old(transform.translation), unit, a, c)
  {
    var cap := c.wallZFactor * c.tileSize;
    var deltaXz := Vec2(unit.x * a, unit.y * a);
    var deltaX := Signum(direction.x) * a;
    transform.translation := transform.translation.(x := transform.translation.x + deltaX);
    transform.translation := transform.translation.(z := transform.translation.z + deltaXz.y);
    if transform.translation.z > cap {
      transform.translation := transform.translation.(z := cap);
    }
  }

  /**
   * update_ant_position for one ant; the map extent is the tile size in the
   * lookup table times its grid size, in whole units.
   */
  method UpdateAntPosition(ant: AntMovement, transform: Transform, unit: Vec2, dt: real,
                           lut: NavMeshLut, tileWidth: nat, tileHeight: nat, c: GameConstants)
    requires NormalizedOrZero(Plane(ant.positionKind, ant.direction), unit)
    modifies transform`translation
    ensures transform.translation ==
      MoveStep(ant.positionKind, ant.direction, old(transform.translation), unit, StepLength(dt, ant.speed, c),
               Extent(tileWidth, lut.gridWidth) as real, Extent(tileHeight, lut.gridHeight) as real, c)
    ensures ant.positionKind.Background? && c.Valid() && ant.speed > 0.0 && dt >= 0.0 &&
            0.0 <= old(transform.translation.x) <= Extent(tileWidth, lut.gridWidth) as real &&
            0.0 <= old(transform.translation.y) <= Extent(tileHeight, lut.gridHeight) as real ==>
      Distance2(transform.translation, old(transform.translation)) <= (c.tileSize / 4.0) * (c.tileSize / 4.0)
  {
    var kind, direction, speed := ant.positionKind, ant.direction, ant.speed;
    var start := transform.translation;
    var a := StepLength(dt, speed, c);
    match kind {
      case Background => MoveOnBackground(direction, transform, unit, a, c);
      case VerticalWall(_) => MoveOnVerticalWall(kind, direction, transform, unit, a, c);
      case HorizontalWall(_) => MoveOnHorizontalWall(kind, direction, transform, unit, a, c);
    }
    var moved := transform.translation;
    // Prevent the ant from leaving the map
    var mapWidth := Extent(tileWidth, lut.gridWidth) as real;
    var mapHeight := Extent(tileHeight, lut.gridHeight) as real;
    transform.translation := Vec3(Clamp(moved.x, 0.0, mapWidth), Clamp(moved.y, 0.0, mapHeight), moved.z);
    if kind.Background? && c.Valid() && speed > 0.0 && dt >= 0.0 &&
       0.0 <= start.x <= mapWidth && 0.0 <= start.y <= mapHeight {
      UnitAtMostOne(Plane(kind, direction), unit);
      MoveStepLength(direction, speed, start, unit, dt, mapWidth, mapHeight, c);
    }
  }
}
