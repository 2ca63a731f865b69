/** The jobs of an ant and the pheromone each job follows. */
module Jobs {
  import Pheromones

  datatype Job = Food | Storage | Thief | Offering
  {
    /** Job::follows: the pheromone channel the ant climbs. */
    function Follows(): (k: Pheromones.PheromoneKind)
      ensures k.Index() < Pheromones.N_PHEROMONE_KINDS
      ensures k == Pheromones.Food <==> this == Food
      ensures k == Pheromones.Storage <==> (this == Storage || this == Thief)
      ensures k == Pheromones.Zombqueen <==> this == Offering
    {
      match this
      case Food => Pheromones.Food
      case Storage => Pheromones.Storage
      case Thief => Pheromones.Storage
      case Offering => Pheromones.Zombqueen
    }

    /** Job::next_job: a worker alternates Food and Storage, a thief Thief and Offering. */
    function NextJob(): (j: Job)
      ensures j != this
      ensures (this == Food || this == Storage) <==> (j == Food || j == Storage)
      ensures (this == Thief || this == Offering) <==> (j == Thief || j == Offering)
    {
      match this
      case Food => Storage
      case Storage => Food
      case Thief => Offering
      case Offering => Thief
    }
  }

  /** The default job. */
  const DEFAULT_JOB: Job := Food

  /** Changing job twice gives the job back, so each pair is a two-cycle. */
  lemma NextJobInvolution(j: Job)
    ensures j.NextJob().NextJob() == j
    ensures j == Food <==> j.NextJob() == Storage
    ensures j == Thief <==> j.NextJob() == Offering
  {
  }
}
