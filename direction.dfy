/**
 * How an ant chooses its direction each frame: it follows the gradient of
 * the pheromone its job follows, at most about once a second; otherwise it
 * wanders by small random rotations in the plane of its surface.
 */
module Direction {
  import opened Common
  import opened Movement
  import Jobs
  import Pheromones

  /**
   * A rotation by an angle given by its cosine and sine. The sampled angles
   * and the quaternion products are not modelled; a rotation is any unit
   * (cos, sin) pair in the sampled range.
   */
  datatype Rotation = Rotation(cos: real, sin: real)
  {
    predicate Unit() { cos * cos + sin * sin == 1.0 }

    /** An angle in [-pi/2, pi/2): the cosine is not negative. */
    predicate WithinQuarterTurn() { Unit() && cos >= 0.0 }

    /** An angle in [-pi/6, pi/6): the cosine is at least cos(pi/6) = sqrt(3)/2. */
    predicate WithinTwelfthTurn() { Unit() && cos > 0.0 && 4.0 * cos * cos >= 3.0 }
  }

  /** Quat::from_rotation_z(angle) * v. */
  function RotateZ(r: Rotation, v: Vec3): Vec3
  {
    Vec3(r.cos * v.x - r.sin * v.y, r.sin * v.x + r.cos * v.y, v.z)
  }

  /** Quat::from_rotation_x(angle) * v. */
  function RotateX(r: Rotation, v: Vec3): Vec3
  {
    Vec3(v.x, r.cos * v.y - r.sin * v.z, r.sin * v.y + r.cos * v.z)
  }

  /** Quat::from_rotation_y(angle) * v. */
  function RotateY(r: Rotation, v: Vec3): Vec3
  {
    Vec3(r.cos * v.x + r.sin * v.z, v.y, r.cos * v.z - r.sin * v.x)
  }

  /** The part of an ant that update_ant_direction reads and writes. */
  datatype Steering = Steering(kind: AntPositionKind, direction: Vec3, lastDirectionUpdate: real)

  /** The ant follows the gradient: it is not zero and the last decision is more than 0.5 + random seconds old. */
  predicate FollowsGradient(s: Steering, gradient: Vec3, elapsed: real, random: real)
  {
    gradient != ZERO3 && elapsed - s.lastDirectionUpdate > random + 0.5
  }

  /**
   * One ant's frame of update_ant_direction, for the gradient of its current
   * node on the channel its job follows, the clock, the uniform draw in
   * [0, 1) and the rotation drawn by the branch taken (wide, within a
   * quarter turn, only for the first branch on the background).
   */
  function DirectionStep(s: Steering, gradient: Vec3, elapsed: real, random: real, rotation: Rotation): Steering
  {
    if FollowsGradient(s, gradient, elapsed, random) then
      s.(direction := gradient, lastDirectionUpdate := elapsed)
    else
      match s.kind
      case Background =>
        if 0.01 > random then s.(direction := RotateZ(rotation, s.direction))
        else if 0.1 > random then s.(direction := RotateZ(rotation, s.direction))
        else s
      case VerticalWall(_) =>
        if elapsed - s.lastDirectionUpdate > random + 2.0 then s.(direction := RotateX(rotation, s.direction)) else s
      case HorizontalWall(_) =>
        if elapsed - s.lastDirectionUpdate > random + 2.0 then s.(direction := RotateY(rotation, s.direction)) else s
  }

  /** The rotation range the branch taken draws from: a quarter turn for a rare background turn, a twelfth otherwise. */
  predicate RotationInRange(s: Steering, random: real, rotation: Rotation)
  {
    if s.kind.Background? && 0.01 > random then rotation.WithinQuarterTurn() else rotation.WithinTwelfthTurn()
  }

  /** A rotation about an axis keeps the length of the vector's other two components. */
  lemma RotationKeepsLength(r: Rotation, a: real, b: real)
    requires r.Unit()
    ensures (r.cos * a - r.sin * b) * (r.cos * a - r.sin * b) + (r.sin * a + r.cos * b) * (r.sin * a + r.cos * b)
         == a * a + b * b
  {
    calc {
      (r.cos * a - r.sin * b) * (r.cos * a - r.sin * b) + (r.sin * a + r.cos * b) * (r.sin * a + r.cos * b);
      (r.cos * r.cos + r.sin * r.sin) * (a * a) + (r.cos * r.cos + r.sin * r.sin) * (b * b);
      a * a + b * b;
    }
  }

  /** The squared length of a vector. */
  function Length2(v: Vec3): real
  {
    v.x * v.x + v.y * v.y + v.z * v.z
  }

  /**
   * Following the gradient replaces the direction by the gradient and stamps
   * the clock; otherwise the clock is kept, and the direction is either kept
   * or rotated about the normal of the ant's surface (z on the background, x
   * on a vertical wall, y on a horizontal one), which keeps its length and
   * its component along that axis.
   */
  lemma DirectionStepFacts(s: Steering, gradient: Vec3, elapsed: real, random: real, rotation: Rotation)
    requires rotation.Unit()
    ensures var r := DirectionStep(s, gradient, elapsed, random, rotation);
      r.kind == s.kind &&
      (FollowsGradient(s, gradient, elapsed, random) ==> r.direction == gradient && r.lastDirectionUpdate == elapsed) &&
      (!FollowsGradient(s, gradient, elapsed, random) ==>
         r.lastDirectionUpdate == s.lastDirectionUpdate && Length2(r.direction) == Length2(s.direction) &&
         (s.kind.Background? ==> r.direction.z == s.direction.z) &&
         (s.kind.VerticalWall? ==> r.direction.x == s.direction.x) &&
         (s.kind.HorizontalWall? ==> r.direction.y == s.direction.y))
  {
    var d := s.direction;
    if !FollowsGradient(s, gradient, elapsed, random) {
      match s.kind
      case Background => RotateZKeepsLength(rotation, d);
      case VerticalWall(_) => RotateXKeepsLength(rotation, d);
      case HorizontalWall(_) => RotateYKeepsLength(rotation, d);
    }
  }

  lemma RotateZKeepsLength(r: Rotation, v: Vec3)
    requires r.Unit()
    ensures Length2(RotateZ(r, v)) == Length2(v)
  {
    RotationKeepsLength(r, v.x, v.y);
  }

  lemma RotateXKeepsLength(r: Rotation, v: Vec3)
    requires r.Unit()
    ensures Length2(RotateX(r, v)) == Length2(v)
  {
    RotationKeepsLength(r, v.y, v.z);
  }

  lemma RotateYKeepsLength(r: Rotation, v: Vec3)
    requires r.Unit()
    ensures Length2(RotateY(r, v)) == Length2(v)
  {
    RotationKeepsLength(r, v.z, v.x);
  }

  /**
   * A background ant that does not follow the gradient keeps its direction
   * when the draw is at least 0.1, and otherwise turns in the xy plane by at
   * most the drawn range: the xy dot product of the new and the old
   * direction is the cosine times the old xy length, so it is never
   * negative, and at least sqrt(3)/2 of it for the common small turn.
   */
  lemma BackgroundTurn(s: Steering, gradient: Vec3, elapsed: real, random: real, rotation: Rotation)
    requires s.kind.Background? && !FollowsGradient(s, gradient, elapsed, random)
    requires RotationInRange(s, random, rotation)
    ensures var r := DirectionStep(s, gradient, elapsed, random, rotation);
      var d := s.direction;
      var planar := d.x * d.x + d.y * d.y;
      (random >= 0.1 ==> r == s) &&
      (random < 0.1 ==>
         r.direction.x * d.x + r.direction.y * d.y == rotation.cos * planar &&
         r.direction.x * d.x + r.direction.y * d.y >= 0.0 &&
         (random >= 0.01 ==> 4.0 * rotation.cos * rotation.cos >= 3.0))
  {
    var d := s.direction;
    var r := DirectionStep(s, gradient, elapsed, random, rotation);
    if random < 0.1 {
      assert r.direction == RotateZ(rotation, d);
      calc {
        r.direction.x * d.x + r.direction.y * d.y;
        (rotation.cos * d.x - rotation.sin * d.y) * d.x + (rotation.sin * d.x + rotation.cos * d.y) * d.y;
        rotation.cos * (d.x * d.x + d.y * d.y);
      }
      assert d.x * d.x + d.y * d.y >= 0.0;
      assert rotation.cos >= 0.0;
    }
  }

  /** A wall ant that does not follow the gradient turns only once its last decision is more than 2 + random seconds old. */
  lemma WallTurnNeedsTime(s: Steering, gradient: Vec3, elapsed: real, random: real, rotation: Rotation)
    requires !s.kind.Background? && !FollowsGradient(s, gradient, elapsed, random)
    requires elapsed - s.lastDirectionUpdate <= random + 2.0
    ensures DirectionStep(s, gradient, elapsed, random, rotation) == s
  {
  }

  function SteeringOf(ant: AntMovement): Steering
    reads ant
  {
    Steering(ant.positionKind, ant.direction, ant.lastDirectionUpdate)
  }

  /**
   * update_ant_direction for one ant: the gradients of its current node must
   * exist (they are unwrapped); the job is the one whose pheromone it follows.
   */
  method UpdateOneAntDirection(ant: AntMovement, job: Jobs.Job, gradients: array2<Vec3>, elapsed: real, random: real,
                               rotation: Rotation)
    requires ant.currentNode < gradients.Length0 && gradients.Length1 == Pheromones.N_PHEROMONE_KINDS
    modifies ant`direction, ant`lastDirectionUpdate
    ensures SteeringOf(ant) ==
      DirectionStep(old(SteeringOf(ant)), gradients[ant.currentNode, job.Follows().Index()], elapsed, random, rotation)
  {
    var goalGradient := gradients[ant.currentNode, job.Follows().Index()];
    if goalGradient != ZERO3 && elapsed - ant.lastDirectionUpdate > random + 0.5 {
      ant.direction := goalGradient;
      ant.lastDirectionUpdate := elapsed;
    } else {
      match ant.positionKind {
        case Background =>
          if 0.01 > random {
            ant.direction := RotateZ(rotation, ant.direction);
          } else if 0.1 > random {
            ant.direction := RotateZ(rotation, ant.direction);
          }
        case VerticalWall(_) =>
          if elapsed - ant.lastDirectionUpdate > random + 2.0 {
            ant.direction := RotateX(rotation, ant.direction);
          }
        case HorizontalWall(_) =>
          if elapsed - ant.lastDirectionUpdate > random + 2.0 {
            ant.direction := RotateY(rotation, ant.direction);
          }
      }
    }
  }

  /** The ants of the query are distinct objects. */
  predicate Distinct(ants: seq<AntMovement>)
  {
    forall i, j :: 0 <= i < j < |ants| ==> ants[i] != ants[j]
  }

  /**
   * update_ant_direction: every ant takes its own step, with its own job,
   * draw and rotation; nothing else about the ants changes.
   */
  method UpdateAntDirection(ants: seq<AntMovement>, jobs: seq<Jobs.Job>, gradients: array2<Vec3>, elapsed: real,
                            randoms: seq<real>, rotations: seq<Rotation>)
    requires Distinct(ants) && |jobs| == |ants| && |randoms| == |ants| && |rotations| == |ants|
    requires gradients.Length1 == Pheromones.N_PHEROMONE_KINDS
    requires forall k :: 0 <= k < |ants| ==> ants[k].currentNode < gradients.Length0
    modifies set k | 0 <= k < |ants| :: ants[k]
    ensures forall k :: 0 <= k < |ants| ==>
      ants[k].positionKind == old(ants[k].positionKind) && ants[k].currentNode == old(ants[k].currentNode) &&
      ants[k].speed == old(ants[k].speed) && ants[k].goal == old(ants[k].goal)
    ensures forall k :: 0 <= k < |ants| ==>
      SteeringOf(ants[k]) ==
        DirectionStep(old(SteeringOf(ants[k])), gradients[old(ants[k].currentNode), jobs[k].Follows().Index()],
                      elapsed, randoms[k], rotations[k])
  {
    var i := 0;
    while i < |ants|
      invariant 0 <= i <= |ants|
      invariant forall k :: 0 <= k < |ants| ==>
        ants[k].positionKind == old(ants[k].positionKind) && ants[k].currentNode == old(ants[k].currentNode) &&
        ants[k].speed == old(ants[k].speed) && ants[k].goal == old(ants[k].goal)
      invariant forall k :: 0 <= k < |ants| ==> ants[k].currentNode < gradients.Length0
      invariant forall k :: 0 <= k < i ==>
        SteeringOf(ants[k]) ==
          DirectionStep(old(SteeringOf(ants[k])), gradients[ants[k].currentNode, jobs[k].Follows().Index()],
                        elapsed, randoms[k], rotations[k])
      invariant forall k :: i <= k < |ants| ==> SteeringOf(ants[k]) == old(SteeringOf(ants[k]))
    {
      UpdateOneAntDirection(ants[i], jobs[i], gradients, elapsed, randoms[i], rotations[i]);
      i := i + 1;
    }
  }

  /**
   * update_ant_direction_randomly for one ant: with probability dt (the
   * outcome is a parameter) the direction becomes a drawn unit vector.
   */
  method UpdateOneAntDirectionRandomly(ant: AntMovement, draw: Option<Vec3>)
    requires draw.Some? ==> Length2(draw.value) == 1.0
    modifies ant`direction
    ensures ant.direction == (if draw.Some? then draw.value else old(ant.direction))
  {
    if draw.Some? {
      ant.direction := draw.value;
    }
  }
}
