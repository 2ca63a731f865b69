/**
 * Small run conditions and systems: a key toggle, a counter that fires on
 * one given call, the physics-debug toggle, and pausing virtual time while
 * the window is not focused. Each system-local state is a class; the key
 * press and the focus events are inputs.
 */
module Helpers {
  /** The new toggle state after one call: flipped exactly when the key was just pressed. */
  function ToggleStep(isActive: bool, justPressed: bool): bool
  {
    if justPressed then !isActive else isActive
  }

  /** The toggle state after one call per entry of presses. */
  function ToggleAll(isActive: bool, presses: seq<bool>): bool
  {
    if |presses| == 0 then isActive else ToggleStep(ToggleAll(isActive, presses[..|presses| - 1]), presses[|presses| - 1])
  }

  /** The number of presses. */
  function Count(presses: seq<bool>): nat
  {
    if |presses| == 0 then 0 else Count(presses[..|presses| - 1]) + (if presses[|presses| - 1] then 1 else 0)
  }

  /** After any sequence of frames the toggle is on iff it started on and was pressed an even number of times. */
  lemma {:induction false} ToggleParity(isActive: bool, presses: seq<bool>)
    ensures ToggleAll(isActive, presses) <==> (isActive <==> Count(presses) % 2 == 0)
  {
    if |presses| > 0 {
      ToggleParity(isActive, presses[..|presses| - 1]);
    }
  }

  /** The Local<bool> of toggle_on_key. */
  class Toggle {
    var isActive: bool

    constructor ()
      ensures !isActive
    {
      isActive := false;
    }

    /** toggle_on_key: flip on a just-pressed key, and return the (new) state. */
    method Run(justPressed: bool) returns (r: bool)
      modifies this
      ensures isActive == ToggleStep(old(isActive), justPressed)
      ensures r == isActive
    {
      if justPressed {
        isActive := !isActive;
      }
      r := isActive;
    }
  }

  /** The outputs of n calls of run_after(count), starting with the counter at local. */
  function RunAfterOutputs(local: nat, count: nat, n: nat): seq<bool>
    decreases n
  {
    if n == 0 then [] else [local == count] + RunAfterOutputs(local + 1, count, n - 1)
  }

  /** The k-th call fires exactly when the counter has reached count by then. */
  lemma {:induction false} RunAfterOutputsAt(local: nat, count: nat, n: nat)
    ensures |RunAfterOutputs(local, count, n)| == n
    ensures forall k :: 0 <= k < n ==> (RunAfterOutputs(local, count, n)[k] <==> local + k == count)
    decreases n
  {
    if n > 0 {
      RunAfterOutputsAt(local + 1, count, n - 1);
    }
  }

  /** A fresh run_after(count) fires exactly once over more than count calls, and never over fewer. */
  lemma {:induction false} RunAfterFiresOnce(local: nat, count: nat, n: nat)
    requires local <= count
    ensures Count(RunAfterOutputs(local, count, n)) == (if local + n > count then 1 else 0)
    decreases n
  {
    if n > 0 {
      CountCons(local == count, RunAfterOutputs(local + 1, count, n - 1));
      if local == count {
        RunAfterNeverAgain(local + 1, count, n - 1);
      } else {
        RunAfterFiresOnce(local + 1, count, n - 1);
      }
    } else {
      assert RunAfterOutputs(local, count, n) == [];
    }
  }

  /** Once past count, run_after never fires again. */
  lemma {:induction false} RunAfterNeverAgain(local: nat, count: nat, n: nat)
    requires local > count
    ensures Count(RunAfterOutputs(local, count, n)) == 0
    decreases n
  {
    if n > 0 {
      RunAfterNeverAgain(local + 1, count, n - 1);
      CountCons(false, RunAfterOutputs(local + 1, count, n - 1));
    } else {
      assert RunAfterOutputs(local, count, n) == [];
    }
  }

  lemma {:induction false} CountCons(b: bool, s: seq<bool>)
    ensures Count([b] + s) == (if b then 1 else 0) + Count(s)
    decreases |s|
  {
    if |s| > 0 {
      var n := |s| - 1;
      assert ([b] + s)[..|s|] == [b] + s[..n];
      CountCons(b, s[..n]);
    } else {
      assert [b] + s == [b];
      assert [b][..0] == [];
    }
  }

  /** The Local<usize> of run_after. */
  class RunAfter {
    const count: nat
    var localCount: nat

    constructor (count: nat)
      ensures this.count == count && localCount == 0
    {
      this.count := count;
      localCount := 0;
    }

    /** run_after(count): fire exactly when the counter is at count, and always count the call. */
    method Run() returns (fire: bool)
      modifies this
      ensures fire <==> old(localCount) == count
      ensures localCount == old(localCount) + 1
    {
      if localCount == count {
        localCount := localCount + 1;
        fire := true;
      } else {
        localCount := localCount + 1;
        fire := false;
      }
    }
  }

  /** The DebugRenderContext resource. */
  class DebugRenderContext {
    var enabled: bool
  }

  /** toggle_physics_debug: every call flips debug rendering. */
  method TogglePhysicsDebug(config: DebugRenderContext)
    modifies config
    ensures config.enabled == !old(config.enabled)
  {
    config.enabled := !config.enabled;
  }

  /** Whether virtual time is paused after the focus events, handled in order. */
  function PausedAfter(paused: bool, focused: seq<bool>): bool
    decreases |focused|
  {
    if |focused| == 0 then paused else PausedAfter(!focused[0], focused[1..])
  }

  /** The last focus event decides: paused exactly when the window lost focus; no event changes nothing. */
  lemma {:induction false} LastFocusDecides(paused: bool, focused: seq<bool>)
    ensures |focused| == 0 ==> PausedAfter(paused, focused) == paused
    ensures |focused| > 0 ==> PausedAfter(paused, focused) == !focused[|focused| - 1]
    decreases |focused|
  {
    if |focused| > 1 {
      LastFocusDecides(!focused[0], focused[1..]);
    }
  }

  /** Time<Virtual>: only whether it is paused. */
  class VirtualTime {
    var paused: bool
  }

  /** pause_if_not_focused: unpause on every focus gain, pause on every focus loss, in order. */
  method PauseIfNotFocused(time: VirtualTime, focused: seq<bool>)
    modifies time
    ensures time.paused == PausedAfter(old(time.paused), focused)
  {
    var i := 0;
    while i < |focused|
      invariant 0 <= i <= |focused|
      invariant PausedAfter(time.paused, focused[i..]) == PausedAfter(old(time.paused), focused)
    {
      assert focused[i..][1..] == focused[i + 1..];
      if focused[i] {
        time.paused := false;
      } else {
        time.paused := true;
      }
      i := i + 1;
    }
  }
}
