/**
 * The revision of place_clues that also makes every chosen cocoon a clue
 * entity the player can touch: besides marking it, it inserts the Clue
 * marker and a capsule collider that collides only with the player sensor.
 * The ECS insert commands are modelled as the sequence of inserts.
 */
module CluePlacement {
  import opened Common
  import opened Cocoons

  /** Collider::capsule_x: a horizontal capsule by its half length and radius. */
  datatype Capsule = Capsule(halfLength: real, radius: real)

  /** The components inserted on a chosen cocoon: the Clue marker and its collider. */
  datatype ClueInsert = ClueInsert(entity: Entity, collider: Capsule, sensorOnly: bool)

  /** The insert command for a chosen cocoon. */
  function ClueComponents(entity: Entity): (i: ClueInsert)
    ensures i.entity == entity && i.sensorOnly
    ensures i.collider.halfLength == 6.0 && i.collider.radius == 3.0
  {
    ClueInsert(entity, Capsule(6.0, 3.0), true)
  }

  /** The insert commands for the chosen cocoons, in order. */
  function Inserts(cs: seq<CocoonRow>, qs: seq<nat>): (r: seq<ClueInsert>)
    requires forall t :: 0 <= t < |qs| ==> qs[t] < |cs|
    ensures |r| == |qs|
  {
    if |qs| == 0 then [] else Inserts(cs, qs[..|qs| - 1]) + [ClueComponents(cs[qs[|qs| - 1]].entity)]
  }

  /** The t-th insert goes to the t-th chosen cocoon. */
  lemma {:induction false} InsertsAt(cs: seq<CocoonRow>, qs: seq<nat>)
    requires forall t :: 0 <= t < |qs| ==> qs[t] < |cs|
    ensures forall t :: 0 <= t < |qs| ==> Inserts(cs, qs)[t] == ClueComponents(cs[qs[t]].entity)
  {
    if |qs| > 0 {
      InsertsAt(cs, qs[..|qs| - 1]);
    }
  }

  /**
   * Every insert goes to a cocoon that ends up a clue, and every cocoon
   * that becomes a clue gets the Clue components.
   */
  lemma InsertsAreClues(cs: seq<CocoonRow>, qs: seq<nat>)
    requires forall t :: 0 <= t < |qs| ==> qs[t] < |cs|
    ensures var r := MarkAll(cs, qs);
      (forall t :: 0 <= t < |qs| ==>
         r[qs[t]].entity == Inserts(cs, qs)[t].entity && r[qs[t]].cocoon.isClue) &&
      (forall q :: 0 <= q < |cs| && r[q].cocoon.isClue && !cs[q].cocoon.isClue ==>
         ClueComponents(cs[q].entity) in Inserts(cs, qs))
  {
    var r := MarkAll(cs, qs);
    InsertsAt(cs, qs);
    forall t | 0 <= t < |qs|
      ensures r[qs[t]].entity == Inserts(cs, qs)[t].entity && r[qs[t]].cocoon.isClue
    {
      MarkAllExactly(cs, qs, qs[t]);
    }
    forall q | 0 <= q < |cs| && r[q].cocoon.isClue && !cs[q].cocoon.isClue
      ensures ClueComponents(cs[q].entity) in Inserts(cs, qs)
    {
      MarkAllExactly(cs, qs, q);
      var t :| 0 <= t < |qs| && qs[t] == q;
      assert Inserts(cs, qs)[t] == ClueComponents(cs[q].entity);
    }
  }

  lemma {:induction false} InsertsAppend(cs: seq<CocoonRow>, qs: seq<nat>, more: seq<nat>)
    requires forall t :: 0 <= t < |qs| ==> qs[t] < |cs|
    requires forall t :: 0 <= t < |more| ==> more[t] < |cs|
    ensures Inserts(cs, qs + more) == Inserts(cs, qs) + Inserts(cs, more)
  {
    if |more| == 0 {
      assert qs + more == qs;
    } else {
      var n := |more| - 1;
      assert (qs + more)[..|qs + more| - 1] == qs + more[..n];
      InsertsAppend(cs, qs, more[..n]);
    }
  }

  /** The body of this place_clues for the j-th selected room of a draw. */
  method MarkAndInsert(cocoons: array<CocoonRow>, d: ClueDraw, cocoonRooms: seq<nat>, j: nat,
                       ghost cs: seq<CocoonRow>, ghost base: seq<CocoonRow>)
    returns (inserted: seq<ClueInsert>)
    requires j < |d.rooms| && DrawFits(d, cocoonRooms, cs)
    requires SameRooms(base, cs) && forall q :: 0 <= q < |cs| ==> base[q].entity == cs[q].entity
    requires cocoons[..] == MarkAll(base, RoomPicks(cs, cocoonRooms, d, j))
    modifies cocoons
    ensures cocoons[..] == MarkAll(base, RoomPicks(cs, cocoonRooms, d, j + 1))
    ensures Inserts(cs, RoomPicks(cs, cocoonRooms, d, j + 1)) == Inserts(cs, RoomPicks(cs, cocoonRooms, d, j)) + inserted
  {
    var room := cocoonRooms[d.rooms[j]];
    ghost var picked := RoomPicks(cs, cocoonRooms, d, j);
    InRoomSameRooms(base, cs, room);
    var chosen := MarkChosen(cocoons, room, d.picks[j], base, picked);
    RoomPicksStep(cs, cocoonRooms, d, j);
    inserted := [];
    if chosen.Some? {
      var q := chosen.value;
      MarkAllExactly(base, picked + [q], q);
      inserted := [ClueComponents(cocoons[q].entity)];
      InsertsAppend(cs, picked, [q]);
      assert Inserts(cs, [q]) == inserted;
    } else {
      assert picked + [] == picked;
    }
  }

  /** The body of this place_clues for one Transformed event. */
  method PlaceCluesForEvent(cocoons: array<CocoonRow>, d: ClueDraw, cocoonRooms: seq<nat>,
                            ghost cs: seq<CocoonRow>, ghost before: seq<nat>)
    returns (inserts: seq<ClueInsert>)
    requires DrawFits(d, cocoonRooms, cs)
    requires forall t :: 0 <= t < |before| ==> before[t] < |cs|
    requires cocoons[..] == MarkAll(cs, before)
    modifies cocoons
    ensures cocoons[..] == MarkAll(cs, before + RoomPicks(cs, cocoonRooms, d, |d.rooms|))
    ensures inserts == Inserts(cs, RoomPicks(cs, cocoonRooms, d, |d.rooms|))
  {
    ghost var base := cocoons[..];
    forall q | 0 <= q < |cs|
      ensures base[q].entity == cs[q].entity && base[q].cocoon.room == cs[q].cocoon.room
    {
      MarkAllExactly(cs, before, q);
    }
    inserts := [];
    var j := 0;
    while j < |d.rooms|
      invariant 0 <= j <= |d.rooms|
      invariant cocoons[..] == MarkAll(base, RoomPicks(cs, cocoonRooms, d, j))
      invariant inserts == Inserts(cs, RoomPicks(cs, cocoonRooms, d, j))
    {
      var more := MarkAndInsert(cocoons, d, cocoonRooms, j, cs, base);
      inserts := inserts + more;
      j := j + 1;
    }
    MarkAllAppend(cs, before, RoomPicks(cs, cocoonRooms, d, |d.rooms|));
  }

  /**
   * components::clues::place_clues: as the cocoon revision, and every
   * chosen cocoon also receives the Clue components, in the order chosen.
   */
  method PlaceClues(cocoons: array<CocoonRow>, events: seq<LevelEvent>, draws: seq<ClueDraw>,
                    cocoonRooms: seq<nat>, cluesNumber: nat)
    returns (inserts: seq<ClueInsert>)
    requires ValidDraws(events, draws, cocoonRooms, cluesNumber, cocoons[..])
    modifies cocoons
    ensures cocoons[..] == MarkAll(old(cocoons[..]), Picks(old(cocoons[..]), events, draws, cocoonRooms, cluesNumber))
    ensures inserts == Inserts(old(cocoons[..]), Picks(old(cocoons[..]), events, draws, cocoonRooms, cluesNumber))
  {
    ghost var cs := cocoons[..];
    inserts := [];
    var k := 0;
    while k < |events|
      invariant 0 <= k <= |events|
      invariant ValidDraws(events[..k], draws[..k], cocoonRooms, cluesNumber, cs)
      invariant cocoons[..] == MarkAll(cs, Picks(cs, events[..k], draws[..k], cocoonRooms, cluesNumber))
      invariant inserts == Inserts(cs, Picks(cs, events[..k], draws[..k], cocoonRooms, cluesNumber))
    {
      assert events[..k + 1][..k] == events[..k];
      assert draws[..k + 1][..k] == draws[..k];
      ghost var before := Picks(cs, events[..k], draws[..k], cocoonRooms, cluesNumber);
      assert Picks(cs, events[..k + 1], draws[..k + 1], cocoonRooms, cluesNumber) ==
        before + (if events[k].Transformed? then RoomPicks(cs, cocoonRooms, draws[k], |draws[k].rooms|) else []);
      if events[k].Transformed? {
        var more := PlaceCluesForEvent(cocoons, draws[k], cocoonRooms, cs, before);
        InsertsAppend(cs, before, RoomPicks(cs, cocoonRooms, draws[k], |draws[k].rooms|));
        inserts := inserts + more;
      } else {
        assert before + [] == before;
      }
      k := k + 1;
    }
    assert events[..k] == events;
    assert draws[..k] == draws;
  }
}
