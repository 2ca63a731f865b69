/**
 * The Clues resource: each clue the player finds reveals the primary or the
 * secondary colour of zombant zero (recoloring the ant that shows the clue),
 * and once both are revealed it earns a pheromone-view charge instead. The
 * random draws a reveal makes are passed in.
 */
module ClueResource {
  import opened Common
  import opened Ants

  /** The random draws of one reveal_next call. */
  datatype RevealDraws = RevealDraws(
    coin: bool,
    primaryChoice: nat,
    secondaryChoice: nat,
    primaryColor: Rgb,
    secondaryColor: Rgb)

  /** The draws are within the candidate lists new_random and new_random_from_primary pick from. */
  predicate ValidDraws(d: RevealDraws)
  {
    d.primaryChoice < |PRIMARY_CANDIDATES| &&
    d.secondaryChoice < |SecondaryCandidates(NewRandom(d.primaryChoice))|
  }

  /** The clue progress as a value. */
  datatype ClueState = ClueState(primary: bool, secondary: bool, charges: nat)

  /** What one reveal_next call does. */
  datatype Reveal = RevealPrimary | RevealSecondary | AddCharge

  /** The choice reveal_next makes from the two flags and the coin. */
  function RevealOf(s: ClueState, coin: bool): (r: Reveal)
    ensures r == AddCharge <==> s.primary && s.secondary
    ensures r == RevealPrimary ==> !s.primary
    ensures r == RevealSecondary ==> !s.secondary
  {
    match (s.primary, s.secondary)
    case (true, true) => AddCharge
    case (true, false) => RevealSecondary
    case (false, true) => RevealPrimary
    case (false, false) => if coin then RevealPrimary else RevealSecondary
  }

  /** The clue progress after one reveal. */
  function NextClue(s: ClueState, coin: bool): ClueState
  {
    match RevealOf(s, coin)
    case RevealPrimary => s.(primary := true)
    case RevealSecondary => s.(secondary := true)
    case AddCharge => s.(charges := s.charges + 1)
  }

  /** The clue ant's style after one reveal. */
  function RestyleClueAnt(style: AntStyle, r: Reveal, d: RevealDraws): AntStyle
    requires ValidDraws(d)
  {
    match r
    case RevealPrimary =>
      var primaryKind := NewRandom(d.primaryChoice);
      style.(colorPrimaryKind := primaryKind,
             colorSecondaryKind := NewRandomFromPrimary(primaryKind, d.secondaryChoice))
    case RevealSecondary => style.(colorPrimary := d.primaryColor, colorSecondary := d.secondaryColor)
    case AddCharge => style
  }

  /** The number of revealed colours plus the charges: what the player has earned. */
  function Progress(s: ClueState): nat
  {
    (if s.primary then 1 else 0) + (if s.secondary then 1 else 0) + s.charges
  }

  /**
   * Every reveal earns exactly one thing and loses nothing: a revealed colour
   * stays revealed, charges never decrease, and a charge is added only
   * once both colours are revealed.
   */
  lemma NextClueProgress(s: ClueState, coin: bool)
    ensures var t := NextClue(s, coin);
      Progress(t) == Progress(s) + 1 &&
      (s.primary ==> t.primary) && (s.secondary ==> t.secondary) && s.charges <= t.charges &&
      (t.charges > s.charges <==> s.primary && s.secondary)
  {
  }

  /** The clue progress after one reveal per draw. */
  function RevealAll(s: ClueState, draws: seq<RevealDraws>): ClueState
  {
    if |draws| == 0 then s
    else NextClue(RevealAll(s, draws[..|draws| - 1]), draws[|draws| - 1].coin)
  }

  /** The clue ant's style after one reveal per draw. */
  function RestyleAll(style: AntStyle, s: ClueState, draws: seq<RevealDraws>): AntStyle
    requires forall k :: 0 <= k < |draws| ==> ValidDraws(draws[k])
  {
    if |draws| == 0 then style
    else
      var n := |draws| - 1;
      RestyleClueAnt(RestyleAll(style, s, draws[..n]), RevealOf(RevealAll(s, draws[..n]), draws[n].coin), draws[n])
  }

  /**
   * n clues earn n things: starting with nothing revealed, two clues reveal
   * both colours whatever the coins, and every clue after them is one
   * pheromone-view charge.
   */
  lemma {:induction false} RevealAllProgress(s: ClueState, draws: seq<RevealDraws>)
    ensures Progress(RevealAll(s, draws)) == Progress(s) + |draws|
    ensures |draws| >= 2 ==> RevealAll(s, draws).primary && RevealAll(s, draws).secondary
    ensures s == ClueState(false, false, 0) && |draws| >= 2 ==> RevealAll(s, draws).charges == |draws| - 2
  {
    if |draws| > 0 {
      var n := |draws| - 1;
      RevealAllProgress(s, draws[..n]);
      NextClueProgress(RevealAll(s, draws[..n]), draws[n].coin);
      if n >= 1 {
        var m := n - 1;
        assert draws[..n][..m] == draws[..m];
        NextClueProgress(RevealAll(s, draws[..m]), draws[m].coin);
      }
    }
  }

  /**
   * A revealed primary colour keeps the clue ant a zombie-zero colour: its
   * primary kind is never white and its secondary kind is one of the
   * primary's candidates.
   */
  lemma RestyleKeepsColours(style: AntStyle, r: Reveal, d: RevealDraws)
    requires ValidDraws(d)
    requires style.colorSecondaryKind in SecondaryCandidates(style.colorPrimaryKind)
    ensures var t := RestyleClueAnt(style, r, d);
      t.colorSecondaryKind in SecondaryCandidates(t.colorPrimaryKind) &&
      t.scale == style.scale && t.animationPhase == style.animationPhase &&
      (r == RevealPrimary ==> t.colorPrimaryKind != White && t.colorSecondaryKind != White)
  {
    if r == RevealPrimary {
      RandomPairNeverWhite(d.primaryChoice, d.secondaryChoice);
    }
  }

  /** The AntStyle query, by entity. */
  class AntStyles {
    var styles: map<Entity, AntStyle>
  }

  /** Clues: the two revealed flags, the charges, and the ant that shows the clue. */
  class Clues {
    var primary: bool
    var secondary: bool
    var charges: nat
    const antClue: Entity

    /** The resource as the clue UI inserts it: nothing revealed, no charge. */
    constructor (antClue: Entity)
      ensures primary == false && secondary == false && charges == 0 && this.antClue == antClue
    {
      this.antClue := antClue;
      primary := false;
      secondary := false;
      charges := 0;
    }

    function State(): ClueState
      reads this
    {
      ClueState(primary, secondary, charges)
    }

    /**
     * reveal_primary_color: the primary colour is revealed even when the
     * clue ant has no style; when it has one, its colour kinds are drawn
     * again.
     */
    method RevealPrimaryColor(q: AntStyles, d: RevealDraws)
      requires ValidDraws(d)
      modifies this, q
      ensures State() == old(State()).(primary := true)
      ensures q.styles == if antClue in old(q.styles)
        then old(q.styles)[antClue := RestyleClueAnt(old(q.styles)[antClue], RevealPrimary, d)]
        else old(q.styles)
    {
      primary := true;
      if antClue !in q.styles {
        return;
      }
      var style := q.styles[antClue];
      style := style.(colorPrimaryKind := NewRandom(d.primaryChoice));
      style := style.(colorSecondaryKind := NewRandomFromPrimary(style.colorPrimaryKind, d.secondaryChoice));
      q.styles := q.styles[antClue := style];
    }

    /**
     * reveal_secondary_color: the secondary colour is revealed even when the
     * clue ant has no style; when it has one, both its colours are drawn
     * again from its colour kinds.
     */
    method RevealSecondaryColor(q: AntStyles, d: RevealDraws)
      requires ValidDraws(d)
      modifies this, q
      ensures State() == old(State()).(secondary := true)
      ensures q.styles == if antClue in old(q.styles)
        then old(q.styles)[antClue := RestyleClueAnt(old(q.styles)[antClue], RevealSecondary, d)]
        else old(q.styles)
    {
      secondary := true;
      if antClue !in q.styles {
        return;
      }
      var style := q.styles[antClue];
      style := style.(colorPrimary := d.primaryColor);
      style := style.(colorSecondary := d.secondaryColor);
      q.styles := q.styles[antClue := style];
    }

    /** reveal_next: reveal a colour not yet revealed (the coin decides between two), or add a charge. */
    method RevealNext(q: AntStyles, d: RevealDraws)
      requires ValidDraws(d)
      modifies this, q
      ensures State() == NextClue(old(State()), d.coin)
      ensures q.styles == if antClue in old(q.styles)
        then old(q.styles)[antClue := RestyleClueAnt(old(q.styles)[antClue], RevealOf(old(State()), d.coin), d)]
        else old(q.styles)
    {
      match (primary, secondary) {
        case (true, true) =>
          charges := charges + 1;
        case (true, false) =>
          RevealSecondaryColor(q, d);
        case (false, true) =>
          RevealPrimaryColor(q, d);
        case (false, false) =>
          if d.coin {
            RevealPrimaryColor(q, d);
          } else {
            RevealSecondaryColor(q, d);
          }
      }
    }

    /** clues_receive_events: one reveal per Found event, in order. */
    method CluesReceiveEvents(q: AntStyles, draws: seq<RevealDraws>)
      requires forall k :: 0 <= k < |draws| ==> ValidDraws(draws[k])
      modifies this, q
      ensures State() == RevealAll(old(State()), draws)
      ensures q.styles == if antClue in old(q.styles)
        then old(q.styles)[antClue := RestyleAll(old(q.styles)[antClue], old(State()), draws)]
        else old(q.styles)
    {
      ghost var s0 := State();
      ghost var styles0 := q.styles;
      var i := 0;
      while i < |draws|
        invariant 0 <= i <= |draws|
        invariant State() == RevealAll(s0, draws[..i])
        invariant antClue in styles0 ==> q.styles == styles0[antClue := RestyleAll(styles0[antClue], s0, draws[..i])]
        invariant antClue !in styles0 ==> q.styles == styles0
      {
        RevealStep(styles0, antClue, s0, draws, i);
        RevealNext(q, draws[i]);
        if antClue in styles0 {
          UpdateTwice(styles0, antClue, RestyleAll(styles0[antClue], s0, draws[..i]), q.styles[antClue]);
        }
        i := i + 1;
      }
      assert draws[..i] == draws;
    }
  }

  lemma UpdateTwice(m: map<Entity, AntStyle>, k: Entity, a: AntStyle, b: AntStyle)
    ensures m[k := a][k := b] == m[k := b]
  {
  }

  /** One more Found event: one more reveal, on the state and on the clue ant's style. */
  lemma RevealStep(styles: map<Entity, AntStyle>, ant: Entity, s: ClueState, draws: seq<RevealDraws>, i: nat)
    requires i < |draws| && forall k :: 0 <= k < |draws| ==> ValidDraws(draws[k])
    ensures RevealAll(s, draws[..i + 1]) == NextClue(RevealAll(s, draws[..i]), draws[i].coin)
    ensures ant in styles ==>
      RestyleAll(styles[ant], s, draws[..i + 1]) ==
      RestyleClueAnt(RestyleAll(styles[ant], s, draws[..i]), RevealOf(RevealAll(s, draws[..i]), draws[i].coin), draws[i])
  {
    assert draws[..i + 1][..i] == draws[..i];
  }
}
