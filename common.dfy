/**
 * Value types shared by every module of the model: optional values, the
 * 2D/3D vectors of the game engine (f32 components are modelled as reals),
 * entity ids, and the game-wide tuning constants.
 */
module Common {

  datatype Option<T> = None | Some(value: T)

  /** An ECS entity id. */
  type Entity = nat

  datatype Vec2 = Vec2(x: real, y: real)

  datatype Vec3 = Vec3(x: real, y: real, z: real)
  {
    function Neg(): Vec3 { Vec3(-x, -y, -z) }
  }

  const ZERO2: Vec2 := Vec2(0.0, 0.0)

  const ZERO3: Vec3 := Vec3(0.0, 0.0, 0.0)

  /** `f32::max` (no NaN in the model). */
  function Max(a: real, b: real): real { if a >= b then a else b }

  /** `f32::min` (no NaN in the model). */
  function Min(a: real, b: real): real { if a <= b then a else b }

  /** `f32::signum`: 1 for every non-negative value (including zero), -1 otherwise. */
  function Signum(a: real): real { if a < 0.0 then -1.0 else 1.0 }

  /** `f32::clamp` (which panics when lo > hi). */
  function Clamp(a: real, lo: real, hi: real): real
    requires lo <= hi
  {
    if a < lo then lo else if a > hi then hi else a
  }

  lemma MulMonotone(a: int, b: int, c: nat)
    requires a <= b
    ensures a * c <= b * c
  {
    if c > 0 {
      MulMonotone(a, b, c - 1);
      assert a * c == a * (c - 1) + a && b * c == b * (c - 1) + b;
    }
  }

  lemma MulStrictReal(a: real, b: real, t: real)
    requires a < b && t > 0.0
    ensures a * t < b * t
  {
    assert (b - a) * t > 0.0;
  }

  /**
   * The crate-wide constants TILE_SIZE, ANT_SIZE, ANT_WALL_CLIPPING and
   * WALL_Z_FACTOR. The crate root that defines them is not part of this
   * model, so they are a parameter of every operation that uses them.
   */
  datatype GameConstants = GameConstants(
    tileSize: real,
    antSize: Vec2,
    antWallClipping: real,
    wallZFactor: real)
  {
    predicate Valid()
    {
      tileSize > 0.0 && antSize.x > 0.0 && antSize.y > 0.0 &&
      antWallClipping > 0.0 && wallZFactor > 0.0
    }
  }
}
