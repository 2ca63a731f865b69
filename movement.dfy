/**
 * The movement record of an ant: the surface it is on, its speed and
 * direction, the nav-mesh node it is attached to, its goal and the time of
 * its last steering decision.
 */
module Movement {
  import opened Common
  import opened Objects
  import opened Goals

  /** The surface an ant walks on. */
  datatype AntPositionKind = Background | VerticalWall(isLeftSide: bool) | HorizontalWall(isUpSide: bool)

  class AntMovement {
    var positionKind: AntPositionKind
    var speed: real
    var direction: Vec3
    /** The current node: its entity and its global translation. */
    var currentNode: Entity
    var currentNodePos: Vec3
    var goal: AntGoal
    var lastDirectionUpdate: real

    constructor (positionKind: AntPositionKind, speed: real, direction: Vec3, currentNode: Entity,
                 currentNodePos: Vec3, goal: AntGoal, lastDirectionUpdate: real)
      ensures this.positionKind == positionKind && this.speed == speed && this.direction == direction
      ensures this.currentNode == currentNode && this.currentNodePos == currentNodePos
      ensures this.goal == goal && this.lastDirectionUpdate == lastDirectionUpdate
    {
      this.positionKind := positionKind;
      this.speed := speed;
      this.direction := direction;
      this.currentNode := currentNode;
      this.currentNodePos := currentNodePos;
      this.goal := goal;
      this.lastDirectionUpdate := lastDirectionUpdate;
    }

    /**
     * reached_object: storage and food objects run the goal's step with the
     * ant's own direction; any other object leaves ant and object as they are.
     */
    method ReachedObject(objectId: Entity, obj: Object) returns (newObj: Object)
      modifies this, goal
      ensures goal == old(goal)
      ensures positionKind == old(positionKind) && speed == old(speed) && currentNode == old(currentNode)
      ensures currentNodePos == old(currentNodePos) && lastDirectionUpdate == old(lastDirectionUpdate)
      ensures obj.kind == Storage ==>
        goal.kind == Food && goal.holds == 0.0 &&
        newObj == obj.(quantity := StoreOne(obj.quantity)) && direction == old(direction).Neg()
      ensures obj.kind == Food ==>
        goal.kind == Storage && goal.holds == 1.0 &&
        newObj == obj.(quantity := TakeOne(obj.quantity)) && direction == old(direction).Neg()
      ensures obj.kind != Storage && obj.kind != Food ==>
        newObj == obj && direction == old(direction) && goal.kind == old(goal.kind) && goal.holds == old(goal.holds)
    {
      newObj := obj;
      match obj.kind
      case Storage =>
        var d;
        newObj, d := goal.StepStorage(obj, direction);
        direction := d;
      case Food =>
        var d;
        newObj, d := goal.StepFood(objectId, obj, direction);
        direction := d;
      case _ =>
    }
  }
}
