/**
 * The player's sprite-sheet animation: three frame ranges (standing,
 * running, jumping), the current state and frame, and the rule that
 * advances the frame whenever the animation timer finishes. The timer
 * itself is left out: whether it has just finished is an input.
 */
module PlayerAnimations {
  datatype AnimationState = Standing | Running | Jumping

  /** AnimationIndices: a frame range of the sprite sheet and its frame duration. */
  datatype AnimationIndices = AnimationIndices(first: nat, last: nat, speed: real)

  /** PlayerAnimation as a value. */
  datatype AnimationView = AnimationView(
    standing: AnimationIndices,
    running: AnimationIndices,
    jumping: AnimationIndices,
    state: AnimationState,
    index: nat,
    isFacingRight: bool)

  /** get_indices: the frame range of the given state. */
  function IndicesOf(v: AnimationView, s: AnimationState): (r: AnimationIndices)
    ensures s == Standing ==> r == v.standing
    ensures s == Running ==> r == v.running
    ensures s == Jumping ==> r == v.jumping
  {
    match s
    case Standing => v.standing
    case Running => v.running
    case Jumping => v.jumping
  }

  /** set_state: switch to the state and restart at its first frame. */
  function SetState(v: AnimationView, s: AnimationState): (r: AnimationView)
    ensures r.state == s && r.index == IndicesOf(v, s).first
    ensures r.(state := v.state, index := v.index) == v
  {
    v.(state := s, index := IndicesOf(v, s).first)
  }

  /**
   * The frame-advance rule of update_player_animation: on a finished timer,
   * the last frame wraps to the first (a jump ending in standing), any
   * other frame moves to the next; otherwise nothing changes.
   */
  function Tick(v: AnimationView, finished: bool): AnimationView
  {
    if !finished then v
    else if v.index == IndicesOf(v, v.state).last then
      var w := if v.state == Jumping then SetState(v, Standing) else v;
      w.(index := IndicesOf(w, w.state).first)
    else v.(index := v.index + 1)
  }

  /** Every frame range is well formed and the current frame lies in the current state's range. */
  predicate InRange(v: AnimationView)
  {
    v.standing.first <= v.standing.last && v.running.first <= v.running.last &&
    v.jumping.first <= v.jumping.last &&
    IndicesOf(v, v.state).first <= v.index <= IndicesOf(v, v.state).last
  }

  /** The animation PlayerAnimationBundle::new configures. */
  function Configured(): (v: AnimationView)
    ensures InRange(v)
    ensures v.state == Standing && v.index == v.standing.first && v.isFacingRight
  {
    AnimationView(AnimationIndices(0, 0, 0.05), AnimationIndices(7, 12, 0.09), AnimationIndices(14, 20, 0.15),
                  Standing, 0, true)
  }

  /** A tick keeps the frame inside the range of the (possibly new) state; the frame ranges never change. */
  lemma TickInRange(v: AnimationView, finished: bool)
    requires InRange(v)
    ensures InRange(Tick(v, finished))
    ensures var w := Tick(v, finished);
      w.standing == v.standing && w.running == v.running && w.jumping == v.jumping &&
      w.isFacingRight == v.isFacingRight
    ensures Tick(v, finished).state != v.state ==> v.state == Jumping && Tick(v, finished).state == Standing
  {
  }

  /** n finished ticks. */
  function Ticks(v: AnimationView, n: nat): AnimationView
  {
    if n == 0 then v else Tick(Ticks(v, n - 1), true)
  }

  /** From the first frame of a state, the first k finished ticks walk through the range frame by frame. */
  lemma {:induction false} TicksWalk(v: AnimationView, k: nat)
    requires InRange(v) && v.index == IndicesOf(v, v.state).first
    requires k <= IndicesOf(v, v.state).last - IndicesOf(v, v.state).first
    ensures Ticks(v, k) == v.(index := v.index + k)
  {
    if k > 0 {
      TicksWalk(v, k - 1);
    }
  }

  /**
   * Jumping plays its frames once and then stands on the standing range's
   * first frame; standing and running loop back to their first frame.
   */
  lemma PlaysThenLoopsOrStands(v: AnimationView)
    requires InRange(v) && v.index == IndicesOf(v, v.state).first
    ensures var n := IndicesOf(v, v.state).last - IndicesOf(v, v.state).first + 1;
      Ticks(v, n) == (if v.state == Jumping then v.(state := Standing, index := v.standing.first) else v)
  {
    var n := IndicesOf(v, v.state).last - IndicesOf(v, v.state).first;
    TicksWalk(v, n);
  }

  /** TextureAtlasSprite: the frame shown and the horizontal flip. */
  class Sprite {
    var index: nat
    var flipX: bool

    constructor (index: nat)
      ensures this.index == index && !flipX
    {
      this.index := index;
      flipX := false;
    }
  }

  /** PlayerAnimation: the three ranges, the state, the frame and the facing. */
  class PlayerAnimation {
    var standing: AnimationIndices
    var running: AnimationIndices
    var jumping: AnimationIndices
    var state: AnimationState
    var index: nat
    var isFacingRight: bool

    /** PlayerAnimationBundle::new: the configured ranges, standing and facing right. */
    constructor ()
      ensures View() == Configured()
    {
      standing := AnimationIndices(0, 0, 0.05);
      running := AnimationIndices(7, 12, 0.09);
      jumping := AnimationIndices(14, 20, 0.15);
      state := Standing;
      index := 0;
      isFacingRight := true;
    }

    function View(): AnimationView
      reads this
    {
      AnimationView(standing, running, jumping, state, index, isFacingRight)
    }

    /** get_indices. */
    function GetIndices(): (r: AnimationIndices)
      reads this
      ensures r == IndicesOf(View(), state)
    {
      match state
      case Standing => standing
      case Running => running
      case Jumping => jumping
    }

    /** set_state. */
    method SetStateOf(s: AnimationState)
      modifies this
      ensures View() == SetState(old(View()), s)
    {
      state := s;
      index := GetIndices().first;
    }
  }

  /**
   * update_player_animation for one player: on a finished timer, advance
   * the frame and show it, flipped when the player faces left; otherwise
   * nothing changes.
   */
  method UpdatePlayerAnimation(animation: PlayerAnimation, sprite: Sprite, finished: bool)
    modifies animation, sprite
    ensures animation.View() == Tick(old(animation.View()), finished)
    ensures finished ==> sprite.index == animation.index && sprite.flipX == !animation.isFacingRight
    ensures !finished ==> sprite.index == old(sprite.index) && sprite.flipX == old(sprite.flipX)
  {
    if finished {
      if animation.index == animation.GetIndices().last {
        if animation.state == Jumping {
          animation.SetStateOf(Standing);
        }
        animation.index := animation.GetIndices().first;
      } else {
        animation.index := animation.index + 1;
      }
      sprite.index := animation.index;
      sprite.flipX := !animation.isFacingRight;
    }
  }
}
