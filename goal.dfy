/**
 * An ant's goal: the kind of object it is heading for and what it carries.
 * Reaching food takes one unit and turns the ant round towards storage;
 * reaching storage drops the unit and turns it round towards food.
 */
module Goals {
  import opened Common
  import opened Objects

  /**
   * The food object's quantity after an ant takes from it: None is an
   * unlimited source, and a last unit (at most 1) is left in place.
   */
  function TakeOne(q: Option<real>): (r: Option<real>)
    ensures r.None? <==> q.None?
    ensures q.Some? ==> r.value <= q.value
    ensures q.Some? && r.value != q.value ==> r.value == q.value - 1.0 && r.value > 0.0
    ensures q.Some? && q.value <= 1.0 ==> r == q
  {
    match q
    case None => None
    case Some(x) => if x > 1.0 then Some(x - 1.0) else q
  }

  /** The storage object's quantity after an ant drops a unit: an absent quantity starts at 1. */
  function StoreOne(q: Option<real>): (r: Option<real>)
    ensures r.Some?
    ensures q.Some? ==> r.value == q.value + 1.0
    ensures q.None? ==> r.value == 1.0
  {
    match q
    case None => Some(1.0)
    case Some(x) => Some(x + 1.0)
  }

  /**
   * A unit taken from one object and stored into one with the same quantity
   * restores it when more than one unit was there; a last unit is duplicated
   * and an unlimited source becomes a quantity of 1.
   */
  lemma TakeThenStore(q: Option<real>)
    ensures StoreOne(TakeOne(q)) ==
      if q.Some? && q.value > 1.0 then q
      else if q.Some? then Some(q.value + 1.0)
      else Some(1.0)
  {
  }

  /** Turning round twice faces the original way. */
  lemma NegInvolutive(v: Vec3)
    ensures v.Neg().Neg() == v
    ensures v.Neg() == Vec3(v.x * -1.0, v.y * -1.0, v.z * -1.0)
  {
  }

  class AntGoal {
    var kind: ObjectKind
    var holds: real

    /** AntGoal::default. */
    constructor ()
      ensures kind == Default && holds == 0.0
    {
      kind := Default;
      holds := 0.0;
    }

    /** step_food: head for storage carrying one unit, and turn round. */
    method StepFood(objectId: Entity, obj: Object, direction: Vec3) returns (newObj: Object, newDirection: Vec3)
      modifies this
      ensures kind == Storage && holds == 1.0
      ensures newObj == obj.(quantity := TakeOne(obj.quantity))
      ensures newDirection == direction.Neg()
    {
      kind := Storage;
      newObj := obj;
      if obj.quantity.Some? {
        var quantity := obj.quantity.value;
        if quantity > 1.0 {
          newObj := newObj.(quantity := Some(quantity - 1.0));
        }
      }
      holds := 1.0;
      newDirection := Vec3(direction.x * -1.0, direction.y * -1.0, direction.z * -1.0);
    }

    /** step_storage: head for food carrying nothing, add the unit to the storage, and turn round. */
    method StepStorage(obj: Object, direction: Vec3) returns (newObj: Object, newDirection: Vec3)
      modifies this
      ensures kind == Food && holds == 0.0
      ensures newObj == obj.(quantity := StoreOne(obj.quantity))
      ensures newDirection == direction.Neg()
    {
      kind := Food;
      newObj := obj.(quantity := if obj.quantity.Some? then Some(obj.quantity.value + 1.0) else Some(1.0));
      holds := 0.0;
      newDirection := Vec3(direction.x * -1.0, direction.y * -1.0, direction.z * -1.0);
    }
  }
}
