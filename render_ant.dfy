/**
 * The ant material's flag word, the three preset materials, and the scale
 * flips that orient an ant drawn on a wall.
 */
module RenderAnt {
  import opened Common
  import opened Movement

  datatype AntMaterial = AntMaterial(flags: bv32)

  const FLAG_IS_SIDE: bv32 := 1
  const FLAG_IS_DEAD: bv32 := 2
  const FLAG_HAS_HALO: bv32 := 4

  /** The flag word of a material: one bit per property. */
  function Flags(isSide: bool, isDead: bool, hasHalo: bool): bv32
  {
    (if isSide then FLAG_IS_SIDE else 0) | (if isDead then FLAG_IS_DEAD else 0) | (if hasHalo then FLAG_HAS_HALO else 0)
  }

  /** AntMaterial::new: starts from no flags and sets the bit of each property that holds. */
  method New(isSide: bool, isDead: bool, hasHalo: bool) returns (m: AntMaterial)
    ensures m.flags == Flags(isSide, isDead, hasHalo)
    ensures m.flags < 8
    ensures (m.flags & FLAG_IS_SIDE != 0) == isSide
    ensures (m.flags & FLAG_IS_DEAD != 0) == isDead
    ensures (m.flags & FLAG_HAS_HALO != 0) == hasHalo
  {
    var flags: bv32 := 0;
    if isSide {
      flags := flags | FLAG_IS_SIDE;
    }
    if isDead {
      flags := flags | FLAG_IS_DEAD;
    }
    if hasHalo {
      flags := flags | FLAG_HAS_HALO;
    }
    m := AntMaterial(flags);
  }

  /** Each property can be read back from its bit, and the word stays below 8. */
  lemma FlagsRoundTrip(isSide: bool, isDead: bool, hasHalo: bool)
    ensures var f := Flags(isSide, isDead, hasHalo);
      f < 8 && (f & FLAG_IS_SIDE != 0) == isSide && (f & FLAG_IS_DEAD != 0) == isDead &&
      (f & FLAG_HAS_HALO != 0) == hasHalo
  {
  }

  /** Different properties give different flag words. */
  lemma FlagsInjective(a1: bool, b1: bool, c1: bool, a2: bool, b2: bool, c2: bool)
    requires Flags(a1, b1, c1) == Flags(a2, b2, c2)
    ensures a1 == a2 && b1 == b2 && c1 == c2
  {
    FlagsRoundTrip(a1, b1, c1);
    FlagsRoundTrip(a2, b2, c2);
  }

  /** The preset material handles. */
  datatype MaterialHandle = Side | Top | Dead

  /** The material registered under each preset handle. */
  function Preset(h: MaterialHandle): (m: AntMaterial)
    ensures h == Side ==> m.flags == 1
    ensures h == Top ==> m.flags == 0
    ensures h == Dead ==> m.flags == 2
  {
    match h
    case Side => AntMaterial(Flags(true, false, false))
    case Top => AntMaterial(Flags(false, false, false))
    case Dead => AntMaterial(Flags(false, true, false))
  }

  /**
   * The scale applied to an ant drawn on a wall; a Background ant is rotated
   * to face its direction instead, which is not modelled (None).
   */
  method WallScale(kind: AntPositionKind, direction: Vec3) returns (scale: Option<Vec2>)
    ensures scale.None? <==> kind.Background?
    ensures kind.VerticalWall? ==>
      (scale.value.y == -1.0 <==> direction.y < 0.0) && (scale.value.x == -1.0 <==> !kind.isLeftSide) &&
      (scale.value.x == 1.0 || scale.value.x == -1.0) && (scale.value.y == 1.0 || scale.value.y == -1.0)
    ensures kind.HorizontalWall? ==>
      (scale.value.x == -1.0 <==> direction.x > 0.0) && (scale.value.y == -1.0 <==> kind.isUpSide) &&
      (scale.value.x == 1.0 || scale.value.x == -1.0) && (scale.value.y == 1.0 || scale.value.y == -1.0)
  {
    match kind
    case Background =>
      scale := None;
    case VerticalWall(isLeftSide) =>
      var s := Vec2(1.0, 1.0);
      if direction.y < 0.0 {
        s := s.(y := -1.0);
      }
      if !isLeftSide {
        s := s.(x := -1.0);
      }
      scale := Some(s);
    case HorizontalWall(isUpSide) =>
      var s := Vec2(1.0, 1.0);
      if direction.x > 0.0 {
        s := s.(x := -1.0);
      }
      if isUpSide {
        s := s.(y := -1.0);
      }
      scale := Some(s);
  }
}
