/**
 * Resource objects placed in the level: food, storage and the default
 * source, each with an optional quantity and a pheromone concentration.
 */
module Objects {
  import opened Common
  import Pheromones

  datatype ObjectKind = Default | Storage | Food | Zombqueen | Zombant
  {
    /** The discriminant, which is also the pheromone channel the object emits on. */
    function Index(): (i: nat)
      ensures i < N_PHEROMONES
      ensures i == PheromoneKindOf().Index()
    {
      match this
      case Default => 0
      case Storage => 1
      case Food => 2
      case Zombqueen => 3
      case Zombant => 4
    }

    /** The pheromone kind with the same name. */
    function PheromoneKindOf(): Pheromones.PheromoneKind
    {
      match this
      case Default => Pheromones.Default
      case Storage => Pheromones.Storage
      case Food => Pheromones.Food
      case Zombqueen => Pheromones.Zombqueen
      case Zombant => Pheromones.Zombant
    }
  }

  const N_PHEROMONES: nat := 5

  datatype Object = Object(kind: ObjectKind, quantity: Option<real>, concentration: real)
  {
    /** Object::kind: the channel index of the object, always a valid pheromone channel. */
    function Kind(): (i: nat)
      ensures i < N_PHEROMONES < Pheromones.N_PHEROMONE_KINDS
      ensures Pheromones.KindOf(i) == kind.PheromoneKindOf()
    {
      kind.Index()
    }
  }

  /** Object::default: a Default source with unlimited quantity and no concentration. */
  function DefaultObject(): (o: Object)
    ensures o.kind == Default && o.Kind() == 0
    ensures o.quantity.None? && o.concentration == 0.0
  {
    Object(Default, None, 0.0)
  }

  /** Grid coordinates of an object in the level (signed, as in the level file). */
  datatype ObjectCoords = ObjectCoords(x: int, y: int)

  datatype ObjectBundle = ObjectBundle(obj: Object, coords: ObjectCoords)

  /** The SourceType field of the level editor: only "Food" and "Storage" are recognised. */
  function SourceTypeKind(sourceType: string): (k: ObjectKind)
    ensures k == Food <==> sourceType == "Food"
    ensures k == Storage <==> sourceType == "Storage"
    ensures k == Food || k == Storage || k == Default
  {
    if sourceType == "Food" then Food
    else if sourceType == "Storage" then Storage
    else Default
  }

  /**
   * ObjectBundle::bundle_entity: the fields of an entity instance (which the
   * source unwraps, so they must be present) become the object and its coordinates.
   */
  function BundleEntity(sourceType: string, quantity: Option<real>, concentration: real, gridX: int, gridY: int)
    : (b: ObjectBundle)
    ensures b.obj.kind == SourceTypeKind(sourceType)
    ensures b.obj.kind != Zombqueen && b.obj.kind != Zombant
    ensures b.obj.quantity == quantity && b.obj.concentration == concentration
    ensures b.coords == ObjectCoords(gridX, gridY)
  {
    ObjectBundle(Object(SourceTypeKind(sourceType), quantity, concentration), ObjectCoords(gridX, gridY))
  }
}
