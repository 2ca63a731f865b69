/**
 * Cocoons sprinkled over the rooms of the map, and place_clues, which turns
 * one cocoon of each of a few randomly selected rooms into a clue whenever
 * the level is transformed. The random selections are passed in as draws;
 * the room list and the number of clues are parameters.
 */
module Cocoons {
  import opened Common

  /** Cocoon: whether it is a clue, and its room (a u8). */
  datatype Cocoon = Cocoon(isClue: bool, room: nat)

  /** The two cocoon materials. */
  datatype CocoonMaterial = Plain | ClueMaterial

  datatype CocoonBundle = CocoonBundle(cocoon: Cocoon, material: CocoonMaterial)

  /** A cocoon is drawn with the clue material exactly when it is a clue. */
  predicate Consistent(cocoon: Cocoon, material: CocoonMaterial)
  {
    material == ClueMaterial <==> cocoon.isClue
  }

  /** CocoonBundle::new: the clue material exactly for a clue. */
  function NewCocoon(isClue: bool, room: nat): (b: CocoonBundle)
    ensures b.cocoon == Cocoon(isClue, room)
    ensures Consistent(b.cocoon, b.material)
  {
    CocoonBundle(Cocoon(isClue, room), if isClue then ClueMaterial else Plain)
  }

  /** CocoonBundle::default: a plain cocoon of room 0. */
  function DefaultCocoon(): (b: CocoonBundle)
    ensures !b.cocoon.isClue && b.cocoon.room == 0 && b.material == Plain
  {
    NewCocoon(false, 0)
  }

  /** The `as u8` cast of the integer Room field: its low eight bits. */
  function AsU8(i: int): (r: nat)
    ensures r < 256 && (r - i) % 256 == 0
  {
    i % 256
  }

  /**
   * CocoonBundle::bundle_entity: a plain cocoon in the room the Room field
   * names after the cast, which must be one of the cocoon rooms (asserted).
   */
  function BundleEntity(roomField: int, cocoonRooms: seq<nat>): (b: CocoonBundle)
    requires AsU8(roomField) in cocoonRooms
    ensures b.cocoon.room in cocoonRooms && b.cocoon.room < 256
    ensures !b.cocoon.isClue && b.material == Plain
  {
    NewCocoon(false, AsU8(roomField))
  }

  /** A row of the cocoon query: the entity, its cocoon and its material. */
  datatype CocoonRow = CocoonRow(entity: Entity, cocoon: Cocoon, material: CocoonMaterial)

  /** The indices of the rows in the given room, in query order. */
  function InRoom(cs: seq<CocoonRow>, room: nat): seq<nat>
  {
    if |cs| == 0 then []
    else InRoom(cs[..|cs| - 1], room) + (if cs[|cs| - 1].cocoon.room == room then [|cs| - 1] else [])
  }

  /** The rows of a room are rows of the query in that room, and all of them. */
  lemma {:induction false} InRoomExactly(cs: seq<CocoonRow>, room: nat)
    ensures forall j :: 0 <= j < |InRoom(cs, room)| ==>
      InRoom(cs, room)[j] < |cs| && cs[InRoom(cs, room)[j]].cocoon.room == room
    ensures forall q :: 0 <= q < |cs| && cs[q].cocoon.room == room ==> q in InRoom(cs, room)
  {
    if |cs| > 0 {
      var n := |cs| - 1;
      InRoomExactly(cs[..n], room);
      assert forall q :: 0 <= q < n ==> cs[..n][q] == cs[q];
    }
  }

  /** Rows in the same rooms, in the same order. */
  predicate SameRooms(a: seq<CocoonRow>, b: seq<CocoonRow>)
  {
    |a| == |b| && forall q :: 0 <= q < |a| ==> a[q].cocoon.room == b[q].cocoon.room
  }

  /** The rows of a room depend only on the rooms. */
  lemma {:induction false} InRoomSameRooms(a: seq<CocoonRow>, b: seq<CocoonRow>, room: nat)
    requires SameRooms(a, b)
    ensures InRoom(a, room) == InRoom(b, room)
  {
    if |a| > 0 {
      var n := |a| - 1;
      InRoomSameRooms(a[..n], b[..n], room);
    }
  }

  /** The rows of a room among the first i rows are the first rows of that room. */
  lemma {:induction false} InRoomPrefix(cs: seq<CocoonRow>, i: nat, room: nat)
    requires i <= |cs|
    ensures InRoom(cs[..i], room) <= InRoom(cs, room)
    decreases |cs|
  {
    if i < |cs| {
      var n := |cs| - 1;
      assert cs[..n][..i] == cs[..i];
      InRoomPrefix(cs[..n], i, room);
    } else {
      assert cs[..i] == cs;
    }
  }

  /** The cocoon `choose` returns: the pick-th of the room, or none when the room has none. */
  function Chosen(cs: seq<CocoonRow>, room: nat, pick: nat): (r: Option<nat>)
    requires |InRoom(cs, room)| > 0 ==> pick < |InRoom(cs, room)|
    ensures r.None? <==> forall q :: 0 <= q < |cs| ==> cs[q].cocoon.room != room
    ensures r.Some? ==> r.value < |cs| && cs[r.value].cocoon.room == room
  {
    InRoomExactly(cs, room);
    if |InRoom(cs, room)| == 0 then None else Some(InRoom(cs, room)[pick])
  }

  /** The random draws of place_clues for one Transformed event: room indices, and one pick per room. */
  datatype ClueDraw = ClueDraw(rooms: seq<nat>, picks: seq<nat>)

  /**
   * choose_multiple: as many distinct rooms of the list as there are clues
   * (all of them when the list is shorter), and a pick within each room's
   * cocoons.
   */
  predicate ValidDraw(d: ClueDraw, cocoonRooms: seq<nat>, cluesNumber: nat, cs: seq<CocoonRow>)
  {
    |d.rooms| == (if cluesNumber <= |cocoonRooms| then cluesNumber else |cocoonRooms|) &&
    (forall j, k :: 0 <= j < k < |d.rooms| ==> d.rooms[j] != d.rooms[k]) &&
    DrawFits(d, cocoonRooms, cs)
  }

  /** Every selection of the draw is a room of the list, with a pick within that room's cocoons. */
  predicate DrawFits(d: ClueDraw, cocoonRooms: seq<nat>, cs: seq<CocoonRow>)
  {
    |d.picks| == |d.rooms| &&
    (forall j :: 0 <= j < |d.rooms| ==> d.rooms[j] < |cocoonRooms|) &&
    forall j :: 0 <= j < |d.rooms| ==>
      var n := |InRoom(cs, cocoonRooms[d.rooms[j]])|;
      n > 0 ==> d.picks[j] < n
  }

  /** Level events: only a Transformed one places clues. */
  datatype LevelEvent = Transformed | OtherLevelEvent

  /** The draws for every event are valid. */
  predicate ValidDraws(events: seq<LevelEvent>, draws: seq<ClueDraw>, cocoonRooms: seq<nat>, cluesNumber: nat,
                       cs: seq<CocoonRow>)
  {
    |draws| == |events| &&
    forall k :: 0 <= k < |draws| ==> ValidDraw(draws[k], cocoonRooms, cluesNumber, cs)
  }

  /** The cocoons chosen for the first j selected rooms of one draw, in order. */
  function RoomPicks(cs: seq<CocoonRow>, cocoonRooms: seq<nat>, d: ClueDraw, j: nat): (r: seq<nat>)
    requires j <= |d.rooms| && DrawFits(d, cocoonRooms, cs)
    ensures forall t :: 0 <= t < |r| ==> r[t] < |cs|
  {
    if j == 0 then []
    else
      var chosen := Chosen(cs, cocoonRooms[d.rooms[j - 1]], d.picks[j - 1]);
      RoomPicks(cs, cocoonRooms, d, j - 1) + (if chosen.Some? then [chosen.value] else [])
  }

  /** The cocoons chosen for all the events, in order. */
  function Picks(cs: seq<CocoonRow>, events: seq<LevelEvent>, draws: seq<ClueDraw>, cocoonRooms: seq<nat>,
                 cluesNumber: nat): (r: seq<nat>)
    requires ValidDraws(events, draws, cocoonRooms, cluesNumber, cs)
    ensures forall t :: 0 <= t < |r| ==> r[t] < |cs|
  {
    if |events| == 0 then []
    else
      var n := |events| - 1;
      Picks(cs, events[..n], draws[..n], cocoonRooms, cluesNumber) +
      (if events[n].Transformed? then RoomPicks(cs, cocoonRooms, draws[n], |draws[n].rooms|) else [])
  }

  /** One cocoon turned into a clue. */
  function Mark(cs: seq<CocoonRow>, q: nat): seq<CocoonRow>
    requires q < |cs|
  {
    cs[q := cs[q].(cocoon := cs[q].cocoon.(isClue := true), material := ClueMaterial)]
  }

  /** The cocoons turned into clues, one after another. */
  function MarkAll(cs: seq<CocoonRow>, qs: seq<nat>): (r: seq<CocoonRow>)
    requires forall t :: 0 <= t < |qs| ==> qs[t] < |cs|
    ensures |r| == |cs|
  {
    if |qs| == 0 then cs
    else Mark(MarkAll(cs, qs[..|qs| - 1]), qs[|qs| - 1])
  }

  /**
   * Marking turns exactly the chosen cocoons into clues drawn with the clue
   * material; no cocoon changes entity or room, none stops being a clue,
   * and every other row is untouched.
   */
  lemma {:induction false} MarkAllExactly(cs: seq<CocoonRow>, qs: seq<nat>, q: nat)
    requires forall t :: 0 <= t < |qs| ==> qs[t] < |cs|
    requires q < |cs|
    ensures SameRooms(MarkAll(cs, qs), cs)
    ensures MarkAll(cs, qs)[q].entity == cs[q].entity
    ensures MarkAll(cs, qs)[q].cocoon.isClue <==> cs[q].cocoon.isClue || q in qs
    ensures q in qs ==> MarkAll(cs, qs)[q].material == ClueMaterial
    ensures q !in qs ==> MarkAll(cs, qs)[q] == cs[q]
  {
    if |qs| > 0 {
      var n := |qs| - 1;
      MarkAllExactly(cs, qs[..n], q);
      assert qs == qs[..n] + [qs[n]];
      forall p | 0 <= p < |cs|
        ensures MarkAll(cs, qs)[p].cocoon.room == cs[p].cocoon.room
      {
        MarkAllExactly(cs, qs[..n], p);
      }
    }
  }

  /** Marking keeps every cocoon drawn with the clue material exactly when it is a clue. */
  lemma MarkAllConsistent(cs: seq<CocoonRow>, qs: seq<nat>)
    requires forall t :: 0 <= t < |qs| ==> qs[t] < |cs|
    requires forall p :: 0 <= p < |cs| ==> Consistent(cs[p].cocoon, cs[p].material)
    ensures forall p :: 0 <= p < |cs| ==> Consistent(MarkAll(cs, qs)[p].cocoon, MarkAll(cs, qs)[p].material)
  {
    forall p | 0 <= p < |cs|
      ensures Consistent(MarkAll(cs, qs)[p].cocoon, MarkAll(cs, qs)[p].material)
    {
      MarkAllExactly(cs, qs, p);
    }
  }

  /** The rooms of the first j selections of a draw. */
  function SelectedRooms(cocoonRooms: seq<nat>, d: ClueDraw, j: nat): set<nat>
    requires j <= |d.rooms|
    requires forall k :: 0 <= k < |d.rooms| ==> d.rooms[k] < |cocoonRooms|
  {
    if j == 0 then {} else SelectedRooms(cocoonRooms, d, j - 1) + {cocoonRooms[d.rooms[j - 1]]}
  }

  /** The rooms selected by the Transformed events. */
  function SelectedByEvents(events: seq<LevelEvent>, draws: seq<ClueDraw>, cocoonRooms: seq<nat>,
                            cluesNumber: nat, cs: seq<CocoonRow>): set<nat>
    requires ValidDraws(events, draws, cocoonRooms, cluesNumber, cs)
  {
    if |events| == 0 then {}
    else
      var n := |events| - 1;
      SelectedByEvents(events[..n], draws[..n], cocoonRooms, cluesNumber, cs) +
      (if events[n].Transformed? then SelectedRooms(cocoonRooms, draws[n], |draws[n].rooms|) else {})
  }

  /** The rooms among the given ones that have a cocoon. */
  function Occupied(cs: seq<CocoonRow>, rooms: set<nat>): set<nat>
  {
    set room | room in rooms && |InRoom(cs, room)| > 0
  }

  /** The rooms of the given cocoons. */
  function RoomsOf(cs: seq<CocoonRow>, qs: seq<nat>): set<nat>
    requires forall t :: 0 <= t < |qs| ==> qs[t] < |cs|
  {
    if |qs| == 0 then {} else RoomsOf(cs, qs[..|qs| - 1]) + {cs[qs[|qs| - 1]].cocoon.room}
  }

  lemma {:induction false} RoomsOfAppend(cs: seq<CocoonRow>, a: seq<nat>, b: seq<nat>)
    requires forall t :: 0 <= t < |a| ==> a[t] < |cs|
    requires forall t :: 0 <= t < |b| ==> b[t] < |cs|
    ensures RoomsOf(cs, a + b) == RoomsOf(cs, a) + RoomsOf(cs, b)
  {
    if |b| == 0 {
      assert a + b == a;
    } else {
      var n := |b| - 1;
      assert (a + b)[..|a + b| - 1] == a + b[..n];
      RoomsOfAppend(cs, a, b[..n]);
    }
  }

  lemma OccupiedAdd(cs: seq<CocoonRow>, rooms: set<nat>, room: nat)
    ensures Occupied(cs, rooms + {room}) ==
      Occupied(cs, rooms) + (if |InRoom(cs, room)| > 0 then {room} else {})
  {
  }

  /** Within one draw, the picked cocoons fill exactly the selected rooms that have cocoons. */
  lemma {:induction false} RoomPicksFillSelected(cs: seq<CocoonRow>, cocoonRooms: seq<nat>, d: ClueDraw, j: nat)
    requires j <= |d.rooms| && DrawFits(d, cocoonRooms, cs)
    ensures RoomsOf(cs, RoomPicks(cs, cocoonRooms, d, j)) == Occupied(cs, SelectedRooms(cocoonRooms, d, j))
  {
    if j > 0 {
      RoomPicksFillSelected(cs, cocoonRooms, d, j - 1);
      var room := cocoonRooms[d.rooms[j - 1]];
      var chosen := Chosen(cs, room, d.picks[j - 1]);
      var before := RoomPicks(cs, cocoonRooms, d, j - 1);
      OccupiedAdd(cs, SelectedRooms(cocoonRooms, d, j - 1), room);
      if chosen.Some? {
        assert (before + [chosen.value])[..|before|] == before;
      } else {
        assert before + [] == before;
      }
    }
  }

  /** Over all the events, the picked cocoons fill exactly the selected rooms that have cocoons. */
  lemma {:induction false} PicksFillSelected(cs: seq<CocoonRow>, events: seq<LevelEvent>, draws: seq<ClueDraw>,
                                             cocoonRooms: seq<nat>, cluesNumber: nat)
    requires ValidDraws(events, draws, cocoonRooms, cluesNumber, cs)
    ensures RoomsOf(cs, Picks(cs, events, draws, cocoonRooms, cluesNumber)) ==
      Occupied(cs, SelectedByEvents(events, draws, cocoonRooms, cluesNumber, cs))
  {
    if |events| > 0 {
      var n := |events| - 1;
      PicksFillSelected(cs, events[..n], draws[..n], cocoonRooms, cluesNumber);
      var before := Picks(cs, events[..n], draws[..n], cocoonRooms, cluesNumber);
      if events[n].Transformed? {
        var mine := RoomPicks(cs, cocoonRooms, draws[n], |draws[n].rooms|);
        RoomPicksFillSelected(cs, cocoonRooms, draws[n], |draws[n].rooms|);
        RoomsOfAppend(cs, before, mine);
      } else {
        assert before + [] == before;
      }
    }
  }

  /** A cocoon's room is among the rooms of the cocoons it is one of. */
  lemma {:induction false} RoomsOfHas(cs: seq<CocoonRow>, qs: seq<nat>, q: nat)
    requires forall t :: 0 <= t < |qs| ==> qs[t] < |cs|
    requires q in qs
    ensures cs[q].cocoon.room in RoomsOf(cs, qs)
  {
    var n := |qs| - 1;
    if qs[n] != q {
      assert q in qs[..n];
      RoomsOfHas(cs, qs[..n], q);
    }
  }

  /** Each room of the cocoons is the room of one of them. */
  lemma {:induction false} RoomsOfWitness(cs: seq<CocoonRow>, qs: seq<nat>, room: nat) returns (t: nat)
    requires forall t :: 0 <= t < |qs| ==> qs[t] < |cs|
    requires room in RoomsOf(cs, qs)
    ensures t < |qs| && cs[qs[t]].cocoon.room == room
  {
    var n := |qs| - 1;
    if cs[qs[n]].cocoon.room == room {
      t := n;
    } else {
      t := RoomsOfWitness(cs, qs[..n], room);
    }
  }

  /**
   * What place_clues achieves: only cocoons of rooms selected by a
   * Transformed event become clues, every selected room that has cocoons
   * gets a clue, no clue is lost, no cocoon changes entity or room, and the
   * material still says exactly which cocoons are clues.
   */
  lemma PlaceCluesEffect(cs: seq<CocoonRow>, events: seq<LevelEvent>, draws: seq<ClueDraw>,
                         cocoonRooms: seq<nat>, cluesNumber: nat)
    requires ValidDraws(events, draws, cocoonRooms, cluesNumber, cs)
    requires forall p :: 0 <= p < |cs| ==> Consistent(cs[p].cocoon, cs[p].material)
    ensures var r := MarkAll(cs, Picks(cs, events, draws, cocoonRooms, cluesNumber));
      var selected := SelectedByEvents(events, draws, cocoonRooms, cluesNumber, cs);
      SameRooms(r, cs) &&
      (forall q :: 0 <= q < |cs| ==> r[q].entity == cs[q].entity && Consistent(r[q].cocoon, r[q].material)) &&
      (forall q :: 0 <= q < |cs| ==> (cs[q].cocoon.isClue ==> r[q].cocoon.isClue)) &&
      (forall q :: 0 <= q < |cs| && cs[q].cocoon.room !in selected ==> r[q] == cs[q]) &&
      (forall room :: room in selected && |InRoom(cs, room)| > 0 ==>
         exists q :: 0 <= q < |cs| && cs[q].cocoon.room == room && r[q].cocoon.isClue)
  {
    var qs := Picks(cs, events, draws, cocoonRooms, cluesNumber);
    var r := MarkAll(cs, qs);
    var selected := SelectedByEvents(events, draws, cocoonRooms, cluesNumber, cs);
    PicksFillSelected(cs, events, draws, cocoonRooms, cluesNumber);
    MarkAllConsistent(cs, qs);
    if |cs| > 0 {
      MarkAllExactly(cs, qs, 0);
    }
    forall q | 0 <= q < |cs|
      ensures r[q].entity == cs[q].entity && (cs[q].cocoon.isClue ==> r[q].cocoon.isClue)
      ensures cs[q].cocoon.room !in selected ==> r[q] == cs[q]
    {
      MarkAllExactly(cs, qs, q);
      if q in qs {
        RoomsOfHas(cs, qs, q);
      }
    }
    forall room | room in selected && |InRoom(cs, room)| > 0
      ensures exists q :: 0 <= q < |cs| && cs[q].cocoon.room == room && r[q].cocoon.isClue
    {
      var t := RoomsOfWitness(cs, qs, room);
      MarkAllExactly(cs, qs, qs[t]);
    }
  }

  /** The cocoon of the query that `choose` returns, scanning the rows in order. */
  method ChooseInRoom(cocoons: array<CocoonRow>, room: nat, pick: nat) returns (chosen: Option<nat>)
    requires |InRoom(cocoons[..], room)| > 0 ==> pick < |InRoom(cocoons[..], room)|
    ensures chosen == Chosen(cocoons[..], room, pick)
  {
    var count := 0;
    var i := 0;
    while i < cocoons.Length
      invariant 0 <= i <= cocoons.Length
      invariant count == |InRoom(cocoons[..i], room)| && count <= pick
    {
      assert cocoons[..i + 1][..i] == cocoons[..i];
      if cocoons[i].cocoon.room == room {
        if count == pick {
          InRoomPrefix(cocoons[..], i + 1, room);
          assert cocoons[..][..i + 1] == cocoons[..i + 1];
          chosen := Some(i);
          return;
        }
        count := count + 1;
      }
      i := i + 1;
    }
    assert cocoons[..i] == cocoons[..];
    chosen := None;
  }

  /** Marking keeps every row's room. */
  lemma MarkAllSameRooms(cs: seq<CocoonRow>, qs: seq<nat>)
    requires forall t :: 0 <= t < |qs| ==> qs[t] < |cs|
    ensures SameRooms(MarkAll(cs, qs), cs)
  {
    forall p | 0 <= p < |cs|
      ensures MarkAll(cs, qs)[p].cocoon.room == cs[p].cocoon.room
    {
      MarkAllExactly(cs, qs, p);
    }
  }

  /** The body of place_clues for one selected room: the chosen cocoon, if any, becomes a clue. */
  method MarkChosen(cocoons: array<CocoonRow>, room: nat, pick: nat, ghost cs: seq<CocoonRow>, ghost qs: seq<nat>)
    returns (chosen: Option<nat>)
    requires |InRoom(cs, room)| > 0 ==> pick < |InRoom(cs, room)|
    requires forall t :: 0 <= t < |qs| ==> qs[t] < |cs|
    requires cocoons[..] == MarkAll(cs, qs)
    modifies cocoons
    ensures chosen == Chosen(cs, room, pick)
    ensures cocoons[..] == MarkAll(cs, qs + (if chosen.Some? then [chosen.value] else []))
  {
    MarkAllSameRooms(cs, qs);
    InRoomSameRooms(cocoons[..], cs, room);
    chosen := ChooseInRoom(cocoons, room, pick);
    if chosen.Some? {
      var q := chosen.value;
      cocoons[q] := cocoons[q].(cocoon := cocoons[q].cocoon.(isClue := true), material := ClueMaterial);
      assert (qs + [q])[..|qs|] == qs;
    } else {
      assert qs + [] == qs;
    }
  }

  lemma RoomPicksStep(cs: seq<CocoonRow>, cocoonRooms: seq<nat>, d: ClueDraw, j: nat)
    requires j < |d.rooms| && DrawFits(d, cocoonRooms, cs)
    ensures var chosen := Chosen(cs, cocoonRooms[d.rooms[j]], d.picks[j]);
      RoomPicks(cs, cocoonRooms, d, j + 1) == RoomPicks(cs, cocoonRooms, d, j) + (if chosen.Some? then [chosen.value] else [])
  {
  }

  /** Marking some cocoons and then more is marking all of them in order. */
  lemma {:induction false} MarkAllAppend(cs: seq<CocoonRow>, qs: seq<nat>, more: seq<nat>)
    requires forall t :: 0 <= t < |qs| ==> qs[t] < |cs|
    requires forall t :: 0 <= t < |more| ==> more[t] < |cs|
    ensures MarkAll(MarkAll(cs, qs), more) == MarkAll(cs, qs + more)
  {
    if |more| == 0 {
      assert qs + more == qs;
    } else {
      var n := |more| - 1;
      assert (qs + more)[..|qs + more| - 1] == qs + more[..n];
      MarkAllAppend(cs, qs, more[..n]);
    }
  }

  /** The j-th selected room of a draw: its chosen cocoon becomes a clue too. */
  method MarkRoom(cocoons: array<CocoonRow>, d: ClueDraw, cocoonRooms: seq<nat>, j: nat,
                  ghost cs: seq<CocoonRow>, ghost base: seq<CocoonRow>)
    requires j < |d.rooms| && DrawFits(d, cocoonRooms, cs)
    requires SameRooms(base, cs)
    requires cocoons[..] == MarkAll(base, RoomPicks(cs, cocoonRooms, d, j))
    modifies cocoons
    ensures cocoons[..] == MarkAll(base, RoomPicks(cs, cocoonRooms, d, j + 1))
  {
    var room := cocoonRooms[d.rooms[j]];
    InRoomSameRooms(base, cs, room);
    var chosen := MarkChosen(cocoons, room, d.picks[j], base, RoomPicks(cs, cocoonRooms, d, j));
    RoomPicksStep(cs, cocoonRooms, d, j);
  }

  /** The body of place_clues for one Transformed event: one clue in each selected room that has cocoons. */
  method PlaceCluesForEvent(cocoons: array<CocoonRow>, d: ClueDraw, cocoonRooms: seq<nat>,
                            ghost cs: seq<CocoonRow>, ghost before: seq<nat>)
    requires DrawFits(d, cocoonRooms, cs)
    requires forall t :: 0 <= t < |before| ==> before[t] < |cs|
    requires cocoons[..] == MarkAll(cs, before)
    modifies cocoons
    ensures cocoons[..] == MarkAll(cs, before + RoomPicks(cs, cocoonRooms, d, |d.rooms|))
  {
    ghost var base := cocoons[..];
    MarkAllSameRooms(cs, before);
    var j := 0;
    while j < |d.rooms|
      invariant 0 <= j <= |d.rooms|
      invariant cocoons[..] == MarkAll(base, RoomPicks(cs, cocoonRooms, d, j))
    {
      MarkRoom(cocoons, d, cocoonRooms, j, cs, base);
      j := j + 1;
    }
    MarkAllAppend(cs, before, RoomPicks(cs, cocoonRooms, d, |d.rooms|));
  }

  /**
   * place_clues: for every Transformed level event, one cocoon of each
   * selected room becomes a clue drawn with the clue material; other events
   * are skipped.
   */
  method PlaceClues(cocoons: array<CocoonRow>, events: seq<LevelEvent>, draws: seq<ClueDraw>,
                    cocoonRooms: seq<nat>, cluesNumber: nat)
    requires ValidDraws(events, draws, cocoonRooms, cluesNumber, cocoons[..])
    modifies cocoons
    ensures cocoons[..] == MarkAll(old(cocoons[..]), Picks(old(cocoons[..]), events, draws, cocoonRooms, cluesNumber))
  {
    ghost var cs := cocoons[..];
    var k := 0;
    while k < |events|
      invariant 0 <= k <= |events|
      invariant ValidDraws(events[..k], draws[..k], cocoonRooms, cluesNumber, cs)
      invariant cocoons[..] == MarkAll(cs, Picks(cs, events[..k], draws[..k], cocoonRooms, cluesNumber))
    {
      assert events[..k + 1][..k] == events[..k];
      assert draws[..k + 1][..k] == draws[..k];
      ghost var before := Picks(cs, events[..k], draws[..k], cocoonRooms, cluesNumber);
      assert Picks(cs, events[..k + 1], draws[..k + 1], cocoonRooms, cluesNumber) ==
        before + (if events[k].Transformed? then RoomPicks(cs, cocoonRooms, draws[k], |draws[k].rooms|) else []);
      if events[k].Transformed? {
        PlaceCluesForEvent(cocoons, draws[k], cocoonRooms, cs, before);
      } else {
        assert before + [] == before;
      }
      k := k + 1;
    }
    assert events[..k] == events;
    assert draws[..k] == draws;
  }
}
