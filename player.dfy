/**
 * The player's wall sensor: the contacts of the sensor at the player's feet
 * decide which walls and grounds the player stands against, kill the wall
 * ants it touches and collect the clues it touches. The ECS commands are
 * modelled as the sequence of commands in issue order, and the ClueEvent
 * writer as the number of Found events sent.
 */
module Players {
  import opened Common
  import opened NavNodes
  import opened Movement
  import opened Ants
  import opened DeadAnts
  import AntExplosions

  /** Player: the walls and grounds in contact, and which side walls are touched. */
  class Player {
    var onWall: set<Entity>
    var onGround: set<Entity>
    var isOnLeftWall: bool
    var isOnRightWall: bool

    /** Player::default: no contact. */
    constructor ()
      ensures onWall == {} && onGround == {} && !isOnLeftWall && !isOnRightWall
    {
      onWall := {};
      onGround := {};
      isOnLeftWall := false;
      isOnRightWall := false;
    }
  }

  /** The player's contact state as a value. */
  datatype Footing = Footing(onWall: set<Entity>, onGround: set<Entity>, left: bool, right: bool)

  function FootingOf(p: Player): Footing
    reads p
  {
    Footing(p.onWall, p.onGround, p.isOnLeftWall, p.isOnRightWall)
  }

  /** What the ant query yields for a live ant: its surface, transform, parent and style. */
  datatype SensedAnt = SensedAnt(kind: AntPositionKind, translation: Vec3, parent: Entity, style: AntStyle)

  /** A contact the ant query does not match, and that is a nav node. */
  predicate IsNodeContact(e: Entity, ants: map<Entity, SensedAnt>, nodes: map<Entity, Node>)
  {
    e !in ants && e in nodes
  }

  /** A contact matched neither by the ant query nor by the nav-node query, but by the clue query. */
  predicate IsClueContact(e: Entity, ants: map<Entity, SensedAnt>, nodes: map<Entity, Node>,
                          clues: map<Entity, Entity>)
  {
    e !in ants && e !in nodes && e in clues
  }

  /** The footing after one contact, starting from f. */
  function Touch(f: Footing, e: Entity, ants: map<Entity, SensedAnt>, nodes: map<Entity, Node>): Footing
  {
    if !IsNodeContact(e, ants, nodes) then f
    else
      match nodes[e]
      case VerticalEdge(_, _, _, isLeftSide) =>
        f.(onWall := f.onWall + {e}, left := f.left || isLeftSide, right := f.right || !isLeftSide)
      case HorizontalEdge(_, _, _, isUpSide) =>
        if isUpSide then f else f.(onGround := f.onGround + {e})
      case Background(_, _, _, _) => f
  }

  /** The footing the contacts give, starting from no contact. */
  function Sense(contacts: seq<Entity>, ants: map<Entity, SensedAnt>, nodes: map<Entity, Node>): Footing
  {
    if |contacts| == 0 then Footing({}, {}, false, false)
    else Touch(Sense(contacts[..|contacts| - 1], ants, nodes), contacts[|contacts| - 1], ants, nodes)
  }

  /** The commands issued for one contact. */
  function ContactEffect(e: Entity, ants: map<Entity, SensedAnt>, nodes: map<Entity, Node>,
                         clues: map<Entity, Entity>, c: GameConstants): seq<AntExplosions.Command>
  {
    if e in ants then
      var a := ants[e];
      if a.kind != AntPositionKind.Background then
        [AntExplosions.SpawnDeadAnt(a.parent, NewDeadAnt(a.translation, a.style, c)),
         AntExplosions.RemoveChild(a.parent, e), AntExplosions.Despawn(e)]
      else []
    else if e in nodes then []
    else if e in clues then [AntExplosions.RemoveChild(clues[e], e), AntExplosions.Despawn(e)]
    else []
  }

  /** The commands issued for the contacts, in order. */
  function SensorCommands(contacts: seq<Entity>, ants: map<Entity, SensedAnt>, nodes: map<Entity, Node>,
                          clues: map<Entity, Entity>, c: GameConstants): seq<AntExplosions.Command>
  {
    if |contacts| == 0 then []
    else
      SensorCommands(contacts[..|contacts| - 1], ants, nodes, clues, c) +
      ContactEffect(contacts[|contacts| - 1], ants, nodes, clues, c)
  }

  /** The number of Found events sent for the contacts. */
  function FoundClues(contacts: seq<Entity>, ants: map<Entity, SensedAnt>, nodes: map<Entity, Node>,
                      clues: map<Entity, Entity>): nat
  {
    if |contacts| == 0 then 0
    else
      FoundClues(contacts[..|contacts| - 1], ants, nodes, clues) +
      (if IsClueContact(contacts[|contacts| - 1], ants, nodes, clues) then 1 else 0)
  }

  /**
   * The footing records exactly the vertical edges touched as walls, the
   * down-side horizontal edges touched as grounds, and a side wall flag
   * exactly when a vertical edge of that side is touched; an ant or a
   * background node in contact never counts.
   */
  lemma {:induction false} SenseExactly(contacts: seq<Entity>, ants: map<Entity, SensedAnt>, nodes: map<Entity, Node>,
                                        e: Entity)
    ensures e in Sense(contacts, ants, nodes).onWall <==>
      e in contacts && IsNodeContact(e, ants, nodes) && nodes[e].VerticalEdge?
    ensures e in Sense(contacts, ants, nodes).onGround <==>
      e in contacts && IsNodeContact(e, ants, nodes) && nodes[e].HorizontalEdge? && !nodes[e].isUpSide
    ensures Sense(contacts, ants, nodes).left <==>
      exists k :: 0 <= k < |contacts| && IsNodeContact(contacts[k], ants, nodes) &&
        nodes[contacts[k]].VerticalEdge? && nodes[contacts[k]].isLeftSide
    ensures Sense(contacts, ants, nodes).right <==>
      exists k :: 0 <= k < |contacts| && IsNodeContact(contacts[k], ants, nodes) &&
        nodes[contacts[k]].VerticalEdge? && !nodes[contacts[k]].isLeftSide
  {
    if |contacts| > 0 {
      var n := |contacts| - 1;
      var prefix := contacts[..n];
      SenseExactly(prefix, ants, nodes, e);
      assert contacts == prefix + [contacts[n]];
      assert forall k :: 0 <= k < n ==> prefix[k] == contacts[k];
    }
  }

  /**
   * A contact is despawned exactly when it is a wall ant (not one on the
   * background) or a clue that is neither an ant nor a nav node; every
   * spawned dead ant copies the transform and style of a wall ant in
   * contact, under its parent.
   */
  lemma {:induction false} SensorCommandsExactly(contacts: seq<Entity>, ants: map<Entity, SensedAnt>,
                                                 nodes: map<Entity, Node>, clues: map<Entity, Entity>,
                                                 c: GameConstants, e: Entity)
    ensures AntExplosions.Despawn(e) in SensorCommands(contacts, ants, nodes, clues, c) <==>
      e in contacts &&
      ((e in ants && ants[e].kind != AntPositionKind.Background) || IsClueContact(e, ants, nodes, clues))
    ensures forall cmd :: cmd in SensorCommands(contacts, ants, nodes, clues, c) && cmd.SpawnDeadAnt? ==>
      exists k :: 0 <= k < |contacts| && contacts[k] in ants &&
        ants[contacts[k]].kind != AntPositionKind.Background &&
        cmd == AntExplosions.SpawnDeadAnt(ants[contacts[k]].parent,
                                          NewDeadAnt(ants[contacts[k]].translation, ants[contacts[k]].style, c))
  {
    if |contacts| > 0 {
      var n := |contacts| - 1;
      var prefix := contacts[..n];
      SensorCommandsExactly(prefix, ants, nodes, clues, c, e);
      assert contacts == prefix + [contacts[n]];
      assert forall k :: 0 <= k < n ==> prefix[k] == contacts[k];
    }
  }

  /** A Found event is sent exactly when some contact is a clue, and at most one per contact. */
  lemma {:induction false} FoundCluesExactly(contacts: seq<Entity>, ants: map<Entity, SensedAnt>,
                                             nodes: map<Entity, Node>, clues: map<Entity, Entity>)
    ensures FoundClues(contacts, ants, nodes, clues) <= |contacts|
    ensures FoundClues(contacts, ants, nodes, clues) > 0 <==>
      exists k :: 0 <= k < |contacts| && IsClueContact(contacts[k], ants, nodes, clues)
  {
    if |contacts| > 0 {
      var n := |contacts| - 1;
      var prefix := contacts[..n];
      FoundCluesExactly(prefix, ants, nodes, clues);
      assert forall k :: 0 <= k < n ==> prefix[k] == contacts[k];
    }
  }

  lemma ContactStep(contacts: seq<Entity>, j: nat, ants: map<Entity, SensedAnt>, nodes: map<Entity, Node>,
                    clues: map<Entity, Entity>, c: GameConstants)
    requires j < |contacts|
    ensures Sense(contacts[..j + 1], ants, nodes) == Touch(Sense(contacts[..j], ants, nodes), contacts[j], ants, nodes)
    ensures SensorCommands(contacts[..j + 1], ants, nodes, clues, c) ==
      SensorCommands(contacts[..j], ants, nodes, clues, c) + ContactEffect(contacts[j], ants, nodes, clues, c)
    ensures FoundClues(contacts[..j + 1], ants, nodes, clues) ==
      FoundClues(contacts[..j], ants, nodes, clues) + (if IsClueContact(contacts[j], ants, nodes, clues) then 1 else 0)
  {
    assert contacts[..j + 1][..j] == contacts[..j];
  }

  /** The body of update_player_sensor for one contact of a sensor. */
  method TouchContact(player: Player, e: Entity, ants: map<Entity, SensedAnt>,
                      nodes: map<Entity, Node>, clues: map<Entity, Entity>, c: GameConstants)
    returns (commands: seq<AntExplosions.Command>, found: nat)
    modifies player
    ensures FootingOf(player) == Touch(old(FootingOf(player)), e, ants, nodes)
    ensures commands == ContactEffect(e, ants, nodes, clues, c)
    ensures found == if IsClueContact(e, ants, nodes, clues) then 1 else 0
  {
    commands := [];
    found := 0;
    if e in ants {
      var a := ants[e];
      if a.kind != AntPositionKind.Background {
        commands := commands + [AntExplosions.SpawnDeadAnt(a.parent, NewDeadAnt(a.translation, a.style, c))];
        commands := commands + [AntExplosions.RemoveChild(a.parent, e)];
        commands := commands + [AntExplosions.Despawn(e)];
      }
    } else if e in nodes {
      match nodes[e] {
        case VerticalEdge(_, _, _, isLeftSide) =>
          player.onWall := player.onWall + {e};
          if isLeftSide {
            player.isOnLeftWall := true;
          } else {
            player.isOnRightWall := true;
          }
        case HorizontalEdge(_, _, _, isUpSide) =>
          if !isUpSide {
            player.onGround := player.onGround + {e};
          }
        case Background(_, _, _, _) =>
      }
    } else if e in clues {
      commands := commands + [AntExplosions.RemoveChild(clues[e], e), AntExplosions.Despawn(e)];
      found := found + 1;
    }
  }

  /**
   * The body of update_player_sensor for one sensor attached to a player:
   * reset the player's contacts, then go through the sensor's contacts.
   */
  method SenseContacts(player: Player, contacts: seq<Entity>, ants: map<Entity, SensedAnt>,
                       nodes: map<Entity, Node>, clues: map<Entity, Entity>, c: GameConstants)
    returns (commands: seq<AntExplosions.Command>, found: nat)
    modifies player
    ensures FootingOf(player) == Sense(contacts, ants, nodes)
    ensures commands == SensorCommands(contacts, ants, nodes, clues, c)
    ensures found == FoundClues(contacts, ants, nodes, clues)
  {
    player.isOnLeftWall := false;
    player.isOnRightWall := false;
    player.onGround := {};
    player.onWall := {};
    commands := [];
    found := 0;
    var j := 0;
    while j < |contacts|
      invariant 0 <= j <= |contacts|
      invariant FootingOf(player) == Sense(contacts[..j], ants, nodes)
      invariant commands == SensorCommands(contacts[..j], ants, nodes, clues, c)
      invariant found == FoundClues(contacts[..j], ants, nodes, clues)
    {
      ContactStep(contacts, j, ants, nodes, clues, c);
      var more, n := TouchContact(player, contacts[j], ants, nodes, clues, c);
      commands := commands + more;
      found := found + n;
      j := j + 1;
    }
    assert contacts[..j] == contacts;
  }

  /** PlayerWallSensor with its colliding entities. */
  datatype Sensor = Sensor(player: Entity, contacts: seq<Entity>)

  /** The index of the last sensor attached to the given player, if any. */
  function LastSensorOf(sensors: seq<Sensor>, p: Entity): (r: Option<nat>)
    ensures r.Some? ==>
      r.value < |sensors| && sensors[r.value].player == p &&
      forall k :: r.value < k < |sensors| ==> sensors[k].player != p
    ensures r.None? ==> forall k :: 0 <= k < |sensors| ==> sensors[k].player != p
  {
    if |sensors| == 0 then None
    else if sensors[|sensors| - 1].player == p then Some(|sensors| - 1)
    else LastSensorOf(sensors[..|sensors| - 1], p)
  }

  /** A player's footing after the sensors are handled in order, starting from `initial`. */
  function FootingAfter(sensors: seq<Sensor>, p: Entity, ants: map<Entity, SensedAnt>, nodes: map<Entity, Node>,
                        initial: Footing): Footing
  {
    if |sensors| == 0 then initial
    else if sensors[|sensors| - 1].player == p then Sense(sensors[|sensors| - 1].contacts, ants, nodes)
    else FootingAfter(sensors[..|sensors| - 1], p, ants, nodes, initial)
  }

  /** Only the last sensor attached to a player decides its footing; without one it keeps `initial`. */
  lemma {:induction false} FootingAfterLast(sensors: seq<Sensor>, p: Entity, ants: map<Entity, SensedAnt>,
                                            nodes: map<Entity, Node>, initial: Footing)
    ensures FootingAfter(sensors, p, ants, nodes, initial) ==
      (if LastSensorOf(sensors, p).Some? then Sense(sensors[LastSensorOf(sensors, p).value].contacts, ants, nodes)
       else initial)
  {
    if |sensors| > 0 && sensors[|sensors| - 1].player != p {
      var prefix := sensors[..|sensors| - 1];
      FootingAfterLast(prefix, p, ants, nodes, initial);
      if LastSensorOf(prefix, p).Some? {
        assert sensors[LastSensorOf(prefix, p).value] == prefix[LastSensorOf(prefix, p).value];
      }
    }
  }

  /** The commands of all the sensors attached to a player, in order; an unattached one is skipped. */
  function AllSensorCommands(sensors: seq<Sensor>, players: set<Entity>, ants: map<Entity, SensedAnt>,
                             nodes: map<Entity, Node>, clues: map<Entity, Entity>, c: GameConstants)
    : seq<AntExplosions.Command>
  {
    if |sensors| == 0 then []
    else
      var s := sensors[|sensors| - 1];
      AllSensorCommands(sensors[..|sensors| - 1], players, ants, nodes, clues, c) +
      (if s.player in players then SensorCommands(s.contacts, ants, nodes, clues, c) else [])
  }

  /** The Found events of all the sensors attached to a player. */
  function AllFoundClues(sensors: seq<Sensor>, players: set<Entity>, ants: map<Entity, SensedAnt>,
                         nodes: map<Entity, Node>, clues: map<Entity, Entity>): nat
  {
    if |sensors| == 0 then 0
    else
      var s := sensors[|sensors| - 1];
      AllFoundClues(sensors[..|sensors| - 1], players, ants, nodes, clues) +
      (if s.player in players then FoundClues(s.contacts, ants, nodes, clues) else 0)
  }

  lemma AllSensorsStep(sensors: seq<Sensor>, i: nat, players: set<Entity>, ants: map<Entity, SensedAnt>,
                       nodes: map<Entity, Node>, clues: map<Entity, Entity>, c: GameConstants)
    requires i < |sensors|
    ensures var s := sensors[i];
      AllSensorCommands(sensors[..i + 1], players, ants, nodes, clues, c) ==
        AllSensorCommands(sensors[..i], players, ants, nodes, clues, c) +
        (if s.player in players then SensorCommands(s.contacts, ants, nodes, clues, c) else []) &&
      AllFoundClues(sensors[..i + 1], players, ants, nodes, clues) ==
        AllFoundClues(sensors[..i], players, ants, nodes, clues) +
        (if s.player in players then FoundClues(s.contacts, ants, nodes, clues) else 0)
  {
    assert sensors[..i + 1][..i] == sensors[..i];
  }

  /** Distinct player entities have distinct Player components. */
  predicate DistinctPlayers(players: map<Entity, Player>)
  {
    forall a, b :: a in players && b in players && a != b ==> players[a] != players[b]
  }

  /** The loop body of update_player_sensor for one sensor: only the player it is attached to changes. */
  method SenseSensor(s: Sensor, players: map<Entity, Player>, ants: map<Entity, SensedAnt>,
                     nodes: map<Entity, Node>, clues: map<Entity, Entity>, c: GameConstants)
    returns (commands: seq<AntExplosions.Command>, found: nat)
    requires DistinctPlayers(players)
    modifies players.Values
    ensures forall p :: p in players ==>
      FootingOf(players[p]) == (if p == s.player then Sense(s.contacts, ants, nodes) else old(FootingOf(players[p])))
    ensures commands == (if s.player in players then SensorCommands(s.contacts, ants, nodes, clues, c) else [])
    ensures found == (if s.player in players then FoundClues(s.contacts, ants, nodes, clues) else 0)
  {
    commands := [];
    found := 0;
    if s.player in players {
      var player := players[s.player];
      commands, found := SenseContacts(player, s.contacts, ants, nodes, clues, c);
    }
  }

  /**
   * update_player_sensor: every sensor attached to a player resets and
   * recomputes that player's contacts, so a player ends with the footing of
   * the last sensor attached to it, and keeps its footing when no sensor is.
   */
  method UpdatePlayerSensor(sensors: seq<Sensor>, players: map<Entity, Player>, ants: map<Entity, SensedAnt>,
                            nodes: map<Entity, Node>, clues: map<Entity, Entity>, c: GameConstants)
    returns (commands: seq<AntExplosions.Command>, found: nat)
    requires DistinctPlayers(players)
    modifies players.Values
    ensures forall p :: p in players ==>
      FootingOf(players[p]) ==
        (if LastSensorOf(sensors, p).Some? then Sense(sensors[LastSensorOf(sensors, p).value].contacts, ants, nodes)
         else old(FootingOf(players[p])))
    ensures commands == AllSensorCommands(sensors, players.Keys, ants, nodes, clues, c)
    ensures found == AllFoundClues(sensors, players.Keys, ants, nodes, clues)
  {
    commands := [];
    found := 0;
    var i := 0;
    while i < |sensors|
      invariant 0 <= i <= |sensors|
      invariant forall p :: p in players ==>
        FootingOf(players[p]) == FootingAfter(sensors[..i], p, ants, nodes, old(FootingOf(players[p])))
      invariant commands == AllSensorCommands(sensors[..i], players.Keys, ants, nodes, clues, c)
      invariant found == AllFoundClues(sensors[..i], players.Keys, ants, nodes, clues)
    {
      assert sensors[..i + 1][..i] == sensors[..i];
      AllSensorsStep(sensors, i, players.Keys, ants, nodes, clues, c);
      var more, n := SenseSensor(sensors[i], players, ants, nodes, clues, c);
      commands := commands + more;
      found := found + n;
      i := i + 1;
    }
    assert sensors[..i] == sensors;
    forall p | p in players
      ensures FootingOf(players[p]) ==
        (if LastSensorOf(sensors, p).Some? then Sense(sensors[LastSensorOf(sensors, p).value].contacts, ants, nodes)
         else old(FootingOf(players[p])))
    {
      FootingAfterLast(sensors, p, ants, nodes, old(FootingOf(players[p])));
    }
  }
}
