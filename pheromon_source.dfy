/**
 * The level objects of the three-channel pheromone field: food sources,
 * food stores, corpses and cemeteries, the channel each one emits on, and
 * how a level entity becomes one of them.
 */
module PheromonSource {
  import opened Common
  import Pheromons

  /** Object: the variants of the source, each with its quantity and concentration. */
  datatype SourceObject =
    | Food(foodQuantity: Option<real>, concentration: real)
    | Storage(storageQuantity: real, concentration: real)
    | Corpse(corpseQuantity: int, concentration: real)
    | Cemetery(cemeteryQuantity: int, concentration: real)
  {
    /** Object::pheromon_type: the channel of the three-channel field the object emits on. */
    function PheromonType(): (i: nat)
      ensures i < Pheromons.N_PH
      ensures i == Pheromons.FOOD_SOURCE <==> this.Food?
      ensures i == Pheromons.FOOD_STORE <==> this.Storage?
      ensures i == Pheromons.DEFAULT <==> (this.Corpse? || this.Cemetery?)
    {
      match this
      case Food(_, _) => Pheromons.FOOD_SOURCE
      case Storage(_, _) => Pheromons.FOOD_STORE
      case Corpse(_, _) => Pheromons.DEFAULT
      case Cemetery(_, _) => Pheromons.DEFAULT
    }
  }

  /** Grid coordinates of an object in the level. */
  datatype ObjectCoords = ObjectCoords(x: int, y: int)

  datatype ObjectBundle = ObjectBundle(obj: SourceObject, coords: ObjectCoords)

  /**
   * The fields of a level entity the parser reads. `quantity` is None when
   * the Quantity field is null.
   */
  datatype EntityInstance = EntityInstance(
    sourceType: string,
    quantity: Option<real>,
    concentration: real,
    gridX: int,
    gridY: int)

  /**
   * What bundle_entity demands: the source type is Food or Storage (any
   * other one is unreachable), and a Storage has a non-null quantity (it is
   * unwrapped).
   */
  predicate Parsable(e: EntityInstance)
  {
    (e.sourceType == "Food" || e.sourceType == "Storage") &&
    (e.sourceType == "Storage" ==> e.quantity.Some?)
  }

  /** ObjectBundle::bundle_entity: a Food keeps its optional quantity, a Storage its quantity. */
  function BundleEntity(e: EntityInstance): (b: ObjectBundle)
    requires Parsable(e)
    ensures b.coords == ObjectCoords(e.gridX, e.gridY)
    ensures b.obj.Food? <==> e.sourceType == "Food"
    ensures b.obj.Storage? <==> e.sourceType == "Storage"
  {
    var obj :=
      if e.sourceType == "Food" then Food(e.quantity, e.concentration)
      else Storage(e.quantity.value, e.concentration);
    ObjectBundle(obj, ObjectCoords(e.gridX, e.gridY))
  }

  /**
   * A parsed object gives back its entity's concentration and quantity and
   * emits on the channel of its source type: food sources on FOOD_SOURCE,
   * food stores on FOOD_STORE; it is never a corpse or a cemetery.
   */
  lemma BundleEntityRoundTrip(e: EntityInstance)
    requires Parsable(e)
    ensures var o := BundleEntity(e).obj;
      o.concentration == e.concentration &&
      (o.Food? ==> o.foodQuantity == e.quantity) &&
      (o.Storage? ==> Some(o.storageQuantity) == e.quantity) &&
      !o.Corpse? && !o.Cemetery? &&
      o.PheromonType() == (if e.sourceType == "Food" then Pheromons.FOOD_SOURCE else Pheromons.FOOD_STORE)
  {
  }
}
