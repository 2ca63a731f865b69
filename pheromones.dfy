/**
 * The six pheromone channels of the current field and their default tuning.
 */
module Pheromones {
  import Concentrations

  datatype PheromoneKind = Default | Storage | Food | Zombqueen | Zombant | DeadAnt
  {
    /** The discriminant used to index every per-channel array. */
    function Index(): (i: nat)
      ensures i < N_PHEROMONE_KINDS
      ensures KindOf(i) == this
    {
      match this
      case Default => 0
      case Storage => 1
      case Food => 2
      case Zombqueen => 3
      case Zombant => 4
      case DeadAnt => 5
    }
  }

  const N_PHEROMONE_KINDS: nat := 6

  /** The kind with a given discriminant; the inverse of Index. */
  function KindOf(i: nat): (k: PheromoneKind)
    requires i < N_PHEROMONE_KINDS
  {
    if i == 0 then Default
    else if i == 1 then Storage
    else if i == 2 then Food
    else if i == 3 then Zombqueen
    else if i == 4 then Zombant
    else DeadAnt
  }

  /** Discriminants are distinct and cover 0..5. */
  lemma IndexBijective(i: nat)
    requires i < N_PHEROMONE_KINDS
    ensures KindOf(i).Index() == i
    ensures forall k: PheromoneKind :: k.Index() == i <==> k == KindOf(i)
  {
  }

  /** The named colours of the default palette. */
  datatype Color = Black | White | Purple | Fuchsia | DarkGreen | LimeGreen | Blue | Azure
                 | Maroon | Crimson | Beige | DarkGray | Gray

  datatype PheromoneConfig = PheromoneConfig(
    evaporationRate: seq<real>,
    diffusionRate: seq<real>,
    diffusionFloor: seq<real>,
    concentrationFloor: seq<real>,
    color: seq<(Color, Color)>,
    deadAntDeposit: real,
    zombantDeposit: real,
    zombqueenSource: real)
  {
    function Rates(): Concentrations.Rates
    {
      Concentrations.Rates(evaporationRate, diffusionRate, diffusionFloor, concentrationFloor)
    }
  }

  function DefaultEvaporation(k: PheromoneKind): real
  {
    match k
    case DeadAnt => 0.05
    case Zombant => 0.1
    case Zombqueen => 0.01
    case _ => 0.001
  }

  /**
   * PheromoneConfig::default: uniform starting arrays, then per-kind
   * overwrites in the order of the source, so later writes win (Zombqueen's
   * diffusion rate is set to 0.06 and then to 0.9).
   */
  method DefaultConfig() returns (config: PheromoneConfig)
    ensures |config.color| == N_PHEROMONE_KINDS
    ensures config.Rates().InUnitRange(N_PHEROMONE_KINDS)
    ensures config.diffusionRate[Default.Index()] == 0.01
    ensures config.diffusionRate[Storage.Index()] == 0.06 && config.diffusionRate[Food.Index()] == 0.06
    ensures config.diffusionRate[Zombqueen.Index()] == 0.9
    ensures config.diffusionRate[Zombant.Index()] == 0.01 && config.diffusionRate[DeadAnt.Index()] == 0.01
    ensures forall k: PheromoneKind :: config.evaporationRate[k.Index()] == DefaultEvaporation(k)
    ensures forall k: PheromoneKind :: config.diffusionFloor[k.Index()] == (if k == Zombqueen then 0.0001 else 0.001)
    ensures forall k: PheromoneKind :: config.concentrationFloor[k.Index()] == (if k == Zombqueen then 0.0001 else 0.001)
    ensures config.color[Default.Index()] == (Purple, Fuchsia) && config.color[Food.Index()] == (DarkGreen, LimeGreen)
    ensures config.color[Storage.Index()] == (Blue, Azure) && config.color[Zombqueen.Index()] == (Maroon, Crimson)
    ensures config.color[Zombant.Index()] == (Beige, DarkGray) && config.color[DeadAnt.Index()] == (Black, Gray)
    ensures config.deadAntDeposit == 1.0 && config.zombantDeposit == 1.0 && config.zombqueenSource == 40.0
  {
    var color := DefaultColors();
    var evaporation, diffusion, diffusionFloor, concentrationFloor := DefaultRates();
    config := PheromoneConfig(evaporation, diffusion, diffusionFloor, concentrationFloor, color, 1.0, 1.0, 40.0);
  }

  /** The colour writes of PheromoneConfig::default, in order. */
  method DefaultColors() returns (color: seq<(Color, Color)>)
    ensures color == [(Purple, Fuchsia), (Blue, Azure), (DarkGreen, LimeGreen), (Maroon, Crimson), (Beige, DarkGray),
                      (Black, Gray)]
  {
    color := seq(N_PHEROMONE_KINDS, _ => (Black, White));
    color := color[Default.Index() := (Purple, Fuchsia)];
    color := color[Food.Index() := (DarkGreen, LimeGreen)];
    color := color[Storage.Index() := (Blue, Azure)];
    color := color[Zombqueen.Index() := (Maroon, Crimson)];
    color := color[Zombant.Index() := (Beige, DarkGray)];
    color := color[DeadAnt.Index() := (Black, Gray)];
  }

  /** The rate and floor writes of PheromoneConfig::default, in order. */
  method DefaultRates() returns (evaporation: seq<real>, diffusion: seq<real>, diffusionFloor: seq<real>,
                                 concentrationFloor: seq<real>)
    ensures evaporation == [0.001, 0.001, 0.001, 0.01, 0.1, 0.05]
    ensures diffusion == [0.01, 0.06, 0.06, 0.9, 0.01, 0.01]
    ensures diffusionFloor == [0.001, 0.001, 0.001, 0.0001, 0.001, 0.001] && concentrationFloor == diffusionFloor
  {
    evaporation := seq(N_PHEROMONE_KINDS, _ => 0.001);
    diffusion := seq(N_PHEROMONE_KINDS, _ => 0.0);
    diffusionFloor := seq(N_PHEROMONE_KINDS, _ => 0.001);
    concentrationFloor := seq(N_PHEROMONE_KINDS, _ => 0.001);

    diffusion := diffusion[Default.Index() := 0.01];
    diffusion := diffusion[Storage.Index() := 0.06];
    diffusion := diffusion[Food.Index() := 0.06];
    diffusion := diffusion[Zombqueen.Index() := 0.06];

    evaporation := evaporation[DeadAnt.Index() := 0.05];
    diffusion := diffusion[DeadAnt.Index() := 0.01];

    evaporation := evaporation[Zombant.Index() := 0.1];
    diffusion := diffusion[Zombant.Index() := 0.01];

    evaporation := evaporation[Zombqueen.Index() := 0.01];
    diffusion := diffusion[Zombqueen.Index() := 0.9];
    diffusionFloor := diffusionFloor[Zombqueen.Index() := 0.0001];
    concentrationFloor := concentrationFloor[Zombqueen.Index() := 0.0001];
  }
}
