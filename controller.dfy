/**
 * The interaction controller: a touch shorter than the tap threshold steps
 * the frame ratio through its three modes; anything longer does nothing.
 * Timestamps are integer milliseconds supplied by the caller.
 */
module Controller {

  /** Touches strictly shorter than this many milliseconds are taps. */
  const TapThreshold: int := 500

  /** The frame ratios in cycle order; the first is the initial and the fallback mode. */
  const Modes: seq<real> := [0.5, 0.0, -0.1]

  predicate IsMode(frameRadius: real)
  {
    frameRadius in Modes
  }

  /** A touch that began at `start` and ended at `end` is a tap. */
  predicate IsTap(start: int, end: int)
  {
    end - start < TapThreshold
  }

  /**
   * The mode after a tap: each mode steps to the next in `Modes`, the last
   * back to the first, and any value outside `Modes` falls back to the
   * first. No value is its own successor.
   */
  function NextMode(frameRadius: real): (r: real)
    ensures IsMode(r)
    ensures r != frameRadius
    ensures frameRadius == Modes[0] ==> r == Modes[1]
    ensures frameRadius == Modes[1] ==> r == Modes[2]
    ensures frameRadius == Modes[2] ==> r == Modes[0]
    ensures !IsMode(frameRadius) ==> r == Modes[0]
  {
    if frameRadius == 0.5 then 0.0
    else if frameRadius == 0.0 then -0.1
    else 0.5
  }

  /** The touch state: the last press time and the frame ratio. */
  datatype Touch = Touch(touchStartTime: int, frameRadius: real)

  /** The state when the component first renders. */
  const InitialTouch: Touch := Touch(0, Modes[0])

  /** A press records its time and nothing else. */
  function OnStart(s: Touch, now: int): (r: Touch)
    ensures r.touchStartTime == now && r.frameRadius == s.frameRadius
  {
    s.(touchStartTime := now)
  }

  /**
   * A release steps the mode exactly when the press was less than
   * `TapThreshold` milliseconds ago; the press time is kept.
   */
  function OnEnd(s: Touch, now: int): (r: Touch)
    ensures r.touchStartTime == s.touchStartTime
    ensures r.frameRadius != s.frameRadius <==> IsTap(s.touchStartTime, now)
    ensures IsTap(s.touchStartTime, now) ==> r.frameRadius == NextMode(s.frameRadius)
  {
    if now - s.touchStartTime < TapThreshold then s.(frameRadius := NextMode(s.frameRadius)) else s
  }

  /**
   * The tap boundary: a release 499 ms after the press changes the mode,
   * one at exactly 500 ms or at 501 ms does not.
   */
  lemma TapBoundary(s: Touch, t: int)
    ensures OnEnd(OnStart(s, t), t + 499).frameRadius == NextMode(s.frameRadius)
    ensures OnEnd(OnStart(s, t), t + 500) == OnStart(s, t)
    ensures OnEnd(OnStart(s, t), t + 501) == OnStart(s, t)
  {
  }

  /** The mode after `k` taps. */
  function Tapped(frameRadius: real, k: nat): real
  {
    if k == 0 then frameRadius else NextMode(Tapped(frameRadius, k - 1))
  }

  /**
   * From mode `Modes[i]`, `k` taps reach `Modes[(i + k) % 3]`; in
   * particular three taps come back to where they started.
   */
  lemma {:induction false} TappedCycles(i: nat, k: nat)
    requires i < |Modes|
    ensures Tapped(Modes[i], k) == Modes[(i + k) % |Modes|]
  {
    if k > 0 {
      TappedCycles(i, k - 1);
      var j := (i + k - 1) % |Modes|;
      assert (j + 1) % |Modes| == (i + k) % |Modes|;
    }
  }

  /** Starting at 0.5, three taps produce 0, -0.1 and 0.5 again. */
  lemma ThreeTaps()
    ensures Tapped(0.5, 1) == 0.0 && Tapped(0.5, 2) == -0.1 && Tapped(0.5, 3) == 0.5
  {
    TappedCycles(0, 3);
  }

  /** A touch gesture: press time and release time. */
  datatype Gesture = Gesture(pressed: int, released: int)

  /** Feed a series of gestures to the controller, in order. */
  function Replay(s: Touch, gs: seq<Gesture>): Touch
    decreases |gs|
  {
    if gs == [] then s
    else Replay(OnEnd(OnStart(s, gs[0].pressed), gs[0].released), gs[1..])
  }

  /** How many gestures of the series are taps. */
  function TapCount(gs: seq<Gesture>): (k: nat)
    ensures k <= |gs|
  {
    if gs == [] then 0 else (if IsTap(gs[0].pressed, gs[0].released) then 1 else 0) + TapCount(gs[1..])
  }

  /**
   * Whatever the series of gestures, the frame ratio is the mode reached by
   * as many taps as the series holds taps; so starting from a mode it is
   * always a mode, and from the initial state it is determined by the tap
   * count modulo 3.
   */
  lemma {:induction false} ReplayTaps(s: Touch, gs: seq<Gesture>)
    ensures Replay(s, gs).frameRadius == Tapped(s.frameRadius, TapCount(gs))
    decreases |gs|
  {
    if gs != [] {
      var s' := OnEnd(OnStart(s, gs[0].pressed), gs[0].released);
      ReplayTaps(s', gs[1..]);
      TappedShift(s.frameRadius, TapCount(gs[1..]), IsTap(gs[0].pressed, gs[0].released));
    }
  }

  lemma {:induction false} TappedShift(fr: real, k: nat, tap: bool)
    ensures Tapped(if tap then NextMode(fr) else fr, k) == Tapped(fr, (if tap then 1 else 0) + k)
  {
    if k > 0 {
      TappedShift(fr, k - 1, tap);
    }
  }

  /** From the initial state the frame ratio is `Modes[taps % 3]`. */
  lemma ReplayFromInitial(gs: seq<Gesture>)
    ensures Replay(InitialTouch, gs).frameRadius == Modes[TapCount(gs) % |Modes|]
    ensures IsMode(Replay(InitialTouch, gs).frameRadius)
  {
    ReplayTaps(InitialTouch, gs);
    TappedCycles(0, TapCount(gs));
  }
}
