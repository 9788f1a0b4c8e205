/**
 * The kinematic model: a drive angle and a frame angle advanced once per
 * clock tick, and the transforms that place and rotate each gear and the
 * frame that holds them.
 */
module Kinematics {
  import opened GearTable

  /** Drive-angle increment per clock tick. */
  const Speed: real := 0.003

  /** The modulus the renderer's rotations are reduced by. */
  const FullTurn: real := 360.0

  /** The animation state: drive angle, frame angle and the frame's ratio. */
  datatype Motion = Motion(angle: real, frameAngle: real, frameRadius: real)

  /** The state when the component first renders. */
  const InitialMotion: Motion := Motion(0.0, 0.0, 0.5)

  /**
   * One clock tick: the drive angle grows by `Speed`; the frame angle grows
   * so that its growth times the frame ratio is `Speed`, unless the ratio is
   * 0, when the frame stands still. Nothing else changes.
   */
  function Tick(m: Motion): (r: Motion)
    ensures r.angle - m.angle == Speed
    ensures r.frameRadius == m.frameRadius
    ensures m.frameRadius == 0.0 ==> r.frameAngle == m.frameAngle
    ensures m.frameRadius != 0.0 ==> (r.frameAngle - m.frameAngle) * m.frameRadius == Speed
  {
    var frameAngle := if m.frameRadius != 0.0 then m.frameAngle + Speed / m.frameRadius else m.frameAngle;
    m.(angle := m.angle + Speed, frameAngle := frameAngle)
  }

  /** `k` ticks in a row. */
  function Ticks(m: Motion, k: nat): Motion
  {
    if k == 0 then m else Tick(Ticks(m, k - 1))
  }

  /**
   * After `k` ticks the drive angle has grown by exactly `k * Speed`, the
   * ratio is unchanged, and the frame angle has grown by `k * Speed / ratio`
   * (not at all when the ratio is 0).
   */
  lemma {:induction false} TicksClosedForm(m: Motion, k: nat)
    ensures Ticks(m, k).angle == m.angle + k as real * Speed
    ensures Ticks(m, k).frameRadius == m.frameRadius
    ensures m.frameRadius == 0.0 ==> Ticks(m, k).frameAngle == m.frameAngle
    ensures m.frameRadius != 0.0 ==> Ticks(m, k).frameAngle == m.frameAngle + k as real * (Speed / m.frameRadius)
  {
    if k > 0 {
      TicksClosedForm(m, k - 1);
    }
  }

  /** A frame at ratio 0 never moves, however many ticks pass. */
  lemma FrameStationary(m: Motion, k: nat)
    requires m.frameRadius == 0.0
    ensures Ticks(m, k).frameAngle == m.frameAngle
    ensures Ticks(m, k).angle > m.angle || k == 0
  {
    TicksClosedForm(m, k);
  }

  // ---------------------------------------------------------------------
  // Reduction of angles

  /** Conversion to an integer rounding toward zero. */
  function Trunc(v: real): (t: int)
    ensures t as real <= v < t as real + 1.0 || t as real - 1.0 < v <= t as real
    ensures v >= 0.0 ==> 0 <= t && t as real <= v
    ensures v <= 0.0 ==> t <= 0 && v <= t as real
  {
    if v >= 0.0 then v.Floor else -((-v).Floor)
  }

  /** `d` is a whole number of turns of `FullTurn`. */
  predicate WholeTurns(d: real)
  {
    (d / FullTurn).Floor as real * FullTurn == d
  }

  /**
   * The remainder `v % 360` as the source's language computes it on ideal
   * reals: it keeps the sign of `v`, is smaller than 360 in magnitude, and
   * differs from `v` by a whole number of turns.
   */
  function Rem360(v: real): (r: real)
    ensures -FullTurn < r < FullTurn
    ensures v >= 0.0 ==> r >= 0.0
    ensures v <= 0.0 ==> r <= 0.0
    ensures WholeTurns(v - r)
    ensures -FullTurn < v < FullTurn ==> r == v
  {
    var t := Trunc(v / FullTurn);
    assert (v - (v - FullTurn * t as real)) / FullTurn == t as real;
    v - FullTurn * t as real
  }

  /**
   * The three properties of `Rem360` pin it down: any value with them is
   * the remainder.
   */
  lemma Rem360Unique(v: real, r: real)
    requires -FullTurn < r < FullTurn
    requires v >= 0.0 ==> r >= 0.0
    requires v <= 0.0 ==> r <= 0.0
    requires WholeTurns(v - r)
    ensures r == Rem360(v)
  {
    var q := Rem360(v);
    var k := ((v - r) / FullTurn).Floor;
    var l := ((v - q) / FullTurn).Floor;
    assert v - r == k as real * FullTurn;
    assert v - q == l as real * FullTurn;
    assert (l - k) as real * FullTurn == r - q;
    assert -FullTurn < r - q < FullTurn;
    assert l == k;
  }

  // ---------------------------------------------------------------------
  // Transforms

  /** translate by (translateX, translateY), then rotate by `rotate`. */
  datatype Transform = Transform(translateX: real, translateY: real, rotate: real)

  /**
   * The unreduced rotation of a gear of signed pitch radius `radius`: turned
   * through it, the gear's pitch circle rolls the drive angle's length, so
   * every gear's contact speed is the same; its sign is the sign of the
   * drive angle times the sign of the radius.
   */
  function GearTurn(angle: real, radius: real): (t: real)
    requires radius != 0.0
    ensures t * radius == angle
    ensures angle > 0.0 ==> (t > 0.0 <==> radius > 0.0)
    ensures angle < 0.0 ==> (t > 0.0 <==> radius < 0.0)
    ensures angle == 0.0 ==> t == 0.0
  {
    angle / radius
  }

  /**
   * Two gears are in mesh at any drive angle: their unreduced rotations are
   * inversely proportional to their signed radii.
   */
  lemma Meshing(angle: real, r1: real, r2: real)
    requires r1 != 0.0 && r2 != 0.0
    ensures GearTurn(angle, r1) * r1 == GearTurn(angle, r2) * r2
    ensures GearTurn(angle, r1) == GearTurn(angle, r2) * (r2 / r1)
  {
  }

  /** A gear's transform: move to its origin, rotate by its reduced turn. */
  function GearTransform(g: GearSpec, angle: real): (t: Transform)
    requires g.radius != 0.0
    ensures t.translateX == g.origin.x && t.translateY == g.origin.y
    ensures WholeTurns(GearTurn(angle, g.radius) - t.rotate)
    ensures -FullTurn < t.rotate < FullTurn
    ensures GearTurn(angle, g.radius) >= 0.0 ==> t.rotate >= 0.0
    ensures GearTurn(angle, g.radius) <= 0.0 ==> t.rotate <= 0.0
  {
    Transform(g.origin.x, g.origin.y, Rem360(GearTurn(angle, g.radius)))
  }

  /** The transforms of a whole gear list, one per gear and in the same order. */
  function GearTransforms(gs: seq<GearSpec>, angle: real): (ts: seq<Transform>)
    requires forall i :: 0 <= i < |gs| ==> gs[i].radius != 0.0
    ensures |ts| == |gs|
    ensures forall i :: 0 <= i < |gs| ==> ts[i] == GearTransform(gs[i], angle)
  {
    if gs == [] then [] else [GearTransform(gs[0], angle)] + GearTransforms(gs[1..], angle)
  }

  /**
   * The frame's transform: move to the centre of the view, which starts 20
   * units in from the screen's left edge (`viewWidth` is the screen width
   * less 40), half way down a screen `height` high; then rotate by the
   * reduced frame angle.
   */
  function FrameTransform(frameAngle: real, viewWidth: real, height: real): (t: Transform)
    ensures t.translateX == viewWidth / 2.0 + 20.0 && t.translateY == height / 2.0
    ensures WholeTurns(frameAngle - t.rotate)
    ensures -FullTurn < t.rotate < FullTurn
    ensures frameAngle >= 0.0 ==> t.rotate >= 0.0
    ensures frameAngle <= 0.0 ==> t.rotate <= 0.0
  {
    Transform(viewWidth / 2.0 + 20.0, height / 2.0, Rem360(frameAngle))
  }

  /** The frame's transform is the same after any number of ticks at ratio 0. */
  lemma FrameTransformStationary(m: Motion, k: nat, viewWidth: real, height: real)
    requires m.frameRadius == 0.0
    ensures FrameTransform(Ticks(m, k).frameAngle, viewWidth, height) == FrameTransform(m.frameAngle, viewWidth, height)
  {
    TicksClosedForm(m, k);
  }

  /**
   * In the gear table, the sun turns twice as fast as each planet and the
   * other way round, and each planet two and a half times as fast as the
   * ring, in the same direction; at every drive angle.
   */
  lemma TableTurnRatios(viewWidth: real, x: real, y: real, angle: real)
    ensures var gs := Gears(viewWidth, x, y);
      && GearTurn(angle, gs[1].radius) == -2.0 * GearTurn(angle, gs[2].radius)
      && GearTurn(angle, gs[2].radius) == 2.5 * GearTurn(angle, gs[0].radius)
      && forall i :: 2 <= i < |gs| ==> GearTurn(angle, gs[i].radius) == GearTurn(angle, gs[2].radius)
  {
  }

  /**
   * From the initial state, after 100 ticks the sun (radius 0.1) has turned
   * through 3 and a planet (radius -0.2) through -1.5, before and after the
   * reduction `% 360`: the ratio is the inverse ratio of the radii.
   */
  lemma HundredTicks()
    ensures var m := Ticks(InitialMotion, 100);
      && m.angle == 0.3
      && GearTurn(m.angle, 0.1) == 3.0
      && GearTurn(m.angle, -0.2) == -1.5
      && Rem360(GearTurn(m.angle, 0.1)) == 3.0
      && Rem360(GearTurn(m.angle, -0.2)) == -1.5
      && m.frameAngle == 0.6
  {
    TicksClosedForm(InitialMotion, 100);
  }
}
