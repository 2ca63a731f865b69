/**
 * ant_explosion_collision: live ants touching an explosion are replaced by
 * dead ants. It lives in its own module because it needs both the ant style
 * of module Ants and the dead-ant bundle, which itself depends on Ants.
 * The ECS commands it issues are modelled as the sequence of commands, in
 * issue order.
 */
module AntExplosions {
  import opened Common
  import opened Ants
  import opened DeadAnts

  /** A live ant as the query yields it: entity, contacts, parent, transform and style. */
  datatype LiveAntRow = LiveAntRow(
    entity: Entity,
    contacts: seq<Entity>,
    parent: Entity,
    translation: Vec3,
    style: AntStyle)

  datatype Command =
    | RemoveChild(parent: Entity, child: Entity)
    | Despawn(entity: Entity)
    | SpawnDeadAnt(parent: Entity, bundle: DeadAntBundle)

  /** The three commands issued for one explosion contact of an ant. */
  function Kill(ant: LiveAntRow, c: GameConstants): seq<Command>
  {
    [RemoveChild(ant.parent, ant.entity), Despawn(ant.entity),
     SpawnDeadAnt(ant.parent, NewDeadAnt(ant.translation, ant.style, c))]
  }

  /** The number of the contacts that are explosions. */
  function Hits(contacts: seq<Entity>, explosions: set<Entity>): nat
  {
    if |contacts| == 0 then 0
    else Hits(contacts[..|contacts| - 1], explosions) + (if contacts[|contacts| - 1] in explosions then 1 else 0)
  }

  /** The commands for one ant over the given contacts, in order. */
  function ContactCommands(ant: LiveAntRow, contacts: seq<Entity>, explosions: set<Entity>, c: GameConstants)
    : seq<Command>
  {
    if |contacts| == 0 then []
    else
      ContactCommands(ant, contacts[..|contacts| - 1], explosions, c) +
      (if contacts[|contacts| - 1] in explosions then Kill(ant, c) else [])
  }

  /** The commands for all the ants, in query order. */
  function ExplosionCommands(ants: seq<LiveAntRow>, explosions: set<Entity>, c: GameConstants): seq<Command>
  {
    if |ants| == 0 then []
    else
      var a := ants[|ants| - 1];
      ExplosionCommands(ants[..|ants| - 1], explosions, c) + ContactCommands(a, a.contacts, explosions, c)
  }

  /** The total number of explosion contacts over all the ants. */
  function TotalHits(ants: seq<LiveAntRow>, explosions: set<Entity>): nat
  {
    if |ants| == 0 then 0
    else TotalHits(ants[..|ants| - 1], explosions) + Hits(ants[|ants| - 1].contacts, explosions)
  }

  /**
   * For one ant: its commands are one kill per explosion contact, so it is
   * despawned and replaced by a dead ant with its own transform and style
   * once per contact, and not at all without one.
   */
  lemma {:induction false} ContactCommandsAreKills(ant: LiveAntRow, contacts: seq<Entity>, explosions: set<Entity>,
                                                   c: GameConstants)
    ensures |ContactCommands(ant, contacts, explosions, c)| == 3 * Hits(contacts, explosions)
    ensures forall j :: 0 <= j < |ContactCommands(ant, contacts, explosions, c)| ==>
      ContactCommands(ant, contacts, explosions, c)[j] == Kill(ant, c)[j % 3]
  {
    if |contacts| > 0 {
      var prefix := contacts[..|contacts| - 1];
      ContactCommandsAreKills(ant, prefix, explosions, c);
      var before := ContactCommands(ant, prefix, explosions, c);
      var all := ContactCommands(ant, contacts, explosions, c);
      if contacts[|contacts| - 1] in explosions {
        forall j | |before| <= j < |all|
          ensures all[j] == Kill(ant, c)[j % 3]
        {
          assert all[j] == Kill(ant, c)[j - |before|];
          assert (j - |before|) % 3 == j % 3;
        }
      }
    }
  }

  /**
   * Over all the ants: three commands per explosion contact, and an entity
   * is despawned exactly when it is one of the ants with an explosion
   * contact; every spawned dead ant copies the transform and style of such
   * an ant, under that ant's parent.
   */
  lemma ExplosionCommandsExactly(ants: seq<LiveAntRow>, explosions: set<Entity>, c: GameConstants, e: Entity)
    ensures |ExplosionCommands(ants, explosions, c)| == 3 * TotalHits(ants, explosions)
    ensures Despawn(e) in ExplosionCommands(ants, explosions, c) <==>
      exists k :: 0 <= k < |ants| && ants[k].entity == e && Hits(ants[k].contacts, explosions) > 0
    ensures forall cmd :: cmd in ExplosionCommands(ants, explosions, c) && cmd.SpawnDeadAnt? ==>
      exists k :: 0 <= k < |ants| && Hits(ants[k].contacts, explosions) > 0 &&
        cmd == SpawnDeadAnt(ants[k].parent, NewDeadAnt(ants[k].translation, ants[k].style, c))
  {
    ExplosionCommandsLength(ants, explosions, c);
    ExplosionDespawns(ants, explosions, c, e);
    ExplosionSpawns(ants, explosions, c);
  }

  /** What one ant's commands despawn and spawn. */
  lemma OneAntCommands(a: LiveAntRow, explosions: set<Entity>, c: GameConstants, e: Entity)
    ensures var mine := ContactCommands(a, a.contacts, explosions, c);
      (Despawn(e) in mine <==> a.entity == e && Hits(a.contacts, explosions) > 0) &&
      forall cmd :: cmd in mine && cmd.SpawnDeadAnt? ==>
        cmd == SpawnDeadAnt(a.parent, NewDeadAnt(a.translation, a.style, c)) && Hits(a.contacts, explosions) > 0
  {
    ContactCommandsAreKills(a, a.contacts, explosions, c);
    var mine := ContactCommands(a, a.contacts, explosions, c);
    if Hits(a.contacts, explosions) > 0 {
      assert mine[1] == Despawn(a.entity);
    }
    if Despawn(e) in mine {
      var j :| 0 <= j < |mine| && mine[j] == Despawn(e);
      assert Kill(a, c)[j % 3] == Despawn(e);
    }
    forall cmd | cmd in mine && cmd.SpawnDeadAnt?
      ensures cmd == SpawnDeadAnt(a.parent, NewDeadAnt(a.translation, a.style, c)) && Hits(a.contacts, explosions) > 0
    {
      var j :| 0 <= j < |mine| && mine[j] == cmd;
      assert Kill(a, c)[j % 3] == cmd;
    }
  }

  lemma {:induction false} ExplosionCommandsLength(ants: seq<LiveAntRow>, explosions: set<Entity>, c: GameConstants)
    ensures |ExplosionCommands(ants, explosions, c)| == 3 * TotalHits(ants, explosions)
  {
    if |ants| > 0 {
      var n := |ants| - 1;
      ExplosionCommandsLength(ants[..n], explosions, c);
      ContactCommandsAreKills(ants[n], ants[n].contacts, explosions, c);
    }
  }

  lemma {:induction false} ExplosionDespawns(ants: seq<LiveAntRow>, explosions: set<Entity>, c: GameConstants,
                                             e: Entity)
    ensures Despawn(e) in ExplosionCommands(ants, explosions, c) <==>
      exists k :: 0 <= k < |ants| && ants[k].entity == e && Hits(ants[k].contacts, explosions) > 0
  {
    if |ants| > 0 {
      var n := |ants| - 1;
      var prefix := ants[..n];
      assert forall k :: 0 <= k < n ==> prefix[k] == ants[k];
      ExplosionDespawns(prefix, explosions, c, e);
      OneAntCommands(ants[n], explosions, c, e);
    }
  }

  lemma {:induction false} ExplosionSpawns(ants: seq<LiveAntRow>, explosions: set<Entity>, c: GameConstants)
    ensures forall cmd :: cmd in ExplosionCommands(ants, explosions, c) && cmd.SpawnDeadAnt? ==>
      exists k :: 0 <= k < |ants| && Hits(ants[k].contacts, explosions) > 0 &&
        cmd == SpawnDeadAnt(ants[k].parent, NewDeadAnt(ants[k].translation, ants[k].style, c))
  {
    if |ants| > 0 {
      var n := |ants| - 1;
      var prefix := ants[..n];
      assert forall k :: 0 <= k < n ==> prefix[k] == ants[k];
      ExplosionSpawns(prefix, explosions, c);
      OneAntCommands(ants[n], explosions, c, ants[n].entity);
    }
  }

  /**
   * ant_explosion_collision: for every live ant and every one of its
   * contacts that is an explosion, detach the ant from its parent, despawn
   * it, and spawn a dead ant with its transform and style under the parent.
   */
  method AntExplosionCollision(ants: seq<LiveAntRow>, explosions: set<Entity>, c: GameConstants)
    returns (commands: seq<Command>)
    ensures commands == ExplosionCommands(ants, explosions, c)
  {
    commands := [];
    var i := 0;
    while i < |ants|
      invariant 0 <= i <= |ants|
      invariant commands == ExplosionCommands(ants[..i], explosions, c)
    {
      var ant := ants[i];
      var j := 0;
      ghost var before := commands;
      while j < |ant.contacts|
        invariant 0 <= j <= |ant.contacts|
        invariant commands == before + ContactCommands(ant, ant.contacts[..j], explosions, c)
      {
        assert ant.contacts[..j + 1][..j] == ant.contacts[..j];
        if ant.contacts[j] in explosions {
          commands := commands + [RemoveChild(ant.parent, ant.entity), Despawn(ant.entity)];
          commands := commands + [SpawnDeadAnt(ant.parent, NewDeadAnt(ant.translation, ant.style, c))];
        }
        j := j + 1;
      }
      assert ant.contacts[..j] == ant.contacts;
      assert ants[..i + 1][..i] == ants[..i];
      i := i + 1;
    }
    assert ants[..i] == ants;
  }
}
