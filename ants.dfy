/**
 * The colour kinds of an ant, which give the player clues, and the style
 * record every ant carries. Random choices are passed in as indices into
 * the candidate lists the source chooses from.
 */
module Ants {

  /** Kind of colour of an ant's primary or secondary colour. */
  datatype AntColorKind = Black | Red | Brown | Green | Yellow | White

  /** A linear RGB colour (the shade generation is not modelled). */
  datatype Rgb = Rgb(r: real, g: real, b: real)

  /** AntStyle: only the scale, colours and animation phase of an ant. */
  datatype AntStyle = AntStyle(
    scale: real,
    colorPrimary: Rgb,
    colorPrimaryKind: AntColorKind,
    colorSecondary: Rgb,
    colorSecondaryKind: AntColorKind,
    animationPhase: real)

  /** The kinds new_random chooses from, in the order of the source. */
  const PRIMARY_CANDIDATES: seq<AntColorKind> := [Black, Red, Brown, Green, Yellow]

  /** AntColorKind::new_random: the candidate picked by the random index. */
  function NewRandom(choice: nat): (k: AntColorKind)
    requires choice < |PRIMARY_CANDIDATES|
    ensures k != White
    ensures k in PRIMARY_CANDIDATES
  {
    PRIMARY_CANDIDATES[choice]
  }

  /** Every kind but White can be drawn as a primary colour. */
  lemma NewRandomCovers(k: AntColorKind)
    requires k != White
    ensures exists choice :: 0 <= choice < |PRIMARY_CANDIDATES| && NewRandom(choice) == k
  {
    match k
    case Black => assert NewRandom(0) == k;
    case Red => assert NewRandom(1) == k;
    case Brown => assert NewRandom(2) == k;
    case Green => assert NewRandom(3) == k;
    case Yellow => assert NewRandom(4) == k;
  }

  /** The secondary kinds that match a primary kind. */
  function SecondaryCandidates(primary: AntColorKind): (s: seq<AntColorKind>)
    ensures |s| > 0
  {
    match primary
    case Black => [Red, Brown, Green]
    case Red => [Black, Red, Brown]
    case Brown => [Black, Red, Brown]
    case Green => [Black, Green, Yellow]
    case Yellow => [Brown, Green, Yellow]
    case White => [White]
  }

  /** AntColorKind::new_random_from_primary: the matching candidate picked by the random index. */
  function NewRandomFromPrimary(primary: AntColorKind, choice: nat): (k: AntColorKind)
    requires choice < |SecondaryCandidates(primary)|
    ensures k in SecondaryCandidates(primary)
    ensures (k == White) <==> (primary == White)
  {
    SecondaryCandidates(primary)[choice]
  }

  /**
   * White pairs only with White, Red and Brown share one list, and the
   * candidates of every other primary exclude White.
   */
  lemma SecondaryTable(primary: AntColorKind)
    ensures primary == White <==> SecondaryCandidates(primary) == [White]
    ensures primary != White ==> White !in SecondaryCandidates(primary) && |SecondaryCandidates(primary)| == 3
    ensures SecondaryCandidates(Red) == SecondaryCandidates(Brown)
  {
  }

  /** A primary drawn at random followed by its secondary never involves White. */
  lemma RandomPairNeverWhite(c1: nat, c2: nat)
    requires c1 < |PRIMARY_CANDIDATES|
    requires c2 < |SecondaryCandidates(NewRandom(c1))|
    ensures NewRandom(c1) != White && NewRandomFromPrimary(NewRandom(c1), c2) != White
  {
  }
}
