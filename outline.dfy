/**
 * The gear outline generator: a gear descriptor becomes a path made of a
 * closed ring of trapezoidal teeth followed by a closed circle for the bore
 * (pinions) or the outer rim (ring gears).
 *
 * Every point is kept in polar form Polar(radius, steps). Angles are
 * counted in half tooth pitches of the gear being drawn: for a gear of `n`
 * teeth, Polar(radius, steps) is the Cartesian point
 * (radius * cos(steps * pi / n), radius * sin(steps * pi / n)), so straight
 * up (-pi/2) is -n/2 steps and a full revolution is 2n steps. Radii are
 * already multiplied by the view width.
 */
module Outline {
  import opened GearTable

  /** Radial distance from pitch circle to tooth tip or root, in view widths. */
  const ToothRadius: real := 0.008
  /** Radius of the central bore of a pinion, in view widths. */
  const HoleRadius: real := 0.02

  datatype Polar = Polar(radius: real, steps: real)

  /**
   * One path instruction. `ArcTo` carries both SVG radii and the value
   * written in the sweep-flag position (the view width for tooth arcs,
   * 0 for the bore circle); large-arc flag and x-axis rotation are always 0.
   */
  datatype Cmd =
    | MoveTo(to: Polar)
    | ArcTo(rx: real, ry: real, sweep: real, to: Polar)
    | LineTo(to: Polar)
    | ClosePath

  /** The letter a command is written with. */
  datatype Op = M | A | L | Z

  function OpOf(c: Cmd): Op
  {
    match c
    case MoveTo(_) => M
    case ArcTo(_, _, _, _) => A
    case LineTo(_) => L
    case ClosePath => Z
  }

  function Ops(cs: seq<Cmd>): (os: seq<Op>)
    ensures |os| == |cs|
    ensures forall i :: 0 <= i < |cs| ==> os[i] == OpOf(cs[i])
  {
    if cs == [] then [] else [OpOf(cs[0])] + Ops(cs[1..])
  }

  /** The radii one gear is drawn with (unscaled). */
  datatype Radii = Radii(root: real, pitch: real, tip: real, bore: real)

  /**
   * Radius roles. A pinion has its roots inside and its tips outside the
   * pitch circle, and its bore inside the roots once the pitch radius
   * exceeds a tooth depth plus the hole radius; a ring gear has the reverse
   * order, with its rim circle outside its roots.
   */
  function GearRadii(radius: real, annulus: bool): (r: Radii)
    ensures r.pitch == Abs(radius)
    ensures r.root + r.tip == 2.0 * r.pitch
    ensures !annulus ==> r.root < r.pitch < r.tip && r.tip - r.root == 2.0 * ToothRadius && r.bore == HoleRadius
    ensures !annulus && Abs(radius) > ToothRadius + HoleRadius ==> r.bore < r.root
    ensures annulus ==> r.tip < r.pitch < r.root < r.bore && r.root - r.tip == 2.0 * ToothRadius
    ensures annulus ==> r.bore - r.pitch == 3.0 * ToothRadius
  {
    var pitch := Abs(radius);
    if annulus then Radii(pitch + ToothRadius, pitch, pitch - ToothRadius, pitch + 3.0 * ToothRadius)
    else Radii(pitch - ToothRadius, pitch, pitch + ToothRadius, HoleRadius)
  }

  /**
   * A ring gear uses the radii of a pinion of the same pitch radius with
   * root and tip exchanged, and a rim three tooth depths outside the pitch
   * circle in place of the bore.
   */
  lemma RingReversesPinion(radius: real)
    ensures var ring := GearRadii(radius, true);
      var pinion := GearRadii(radius, false);
      && ring.pitch == pinion.pitch
      && ring.root == pinion.tip && ring.tip == pinion.root
      && ring.bore > ring.root > ring.pitch > ring.tip
      && pinion.tip > pinion.pitch > pinion.root
  {
  }

  /**
   * The angle the tooth ring starts at: -n/2 steps, which is the top of the
   * screen (y grows downwards), shifted half a tooth pitch for a ring gear.
   */
  function StartSteps(n: nat, annulus: bool): real
  {
    -(n as real) / 2.0 + (if annulus then 1.0 else 0.0)
  }

  /** The radii multiplied by the view width `w`. */
  function Scale(g: Radii, w: real): Radii
  {
    Radii(g.root * w, g.pitch * w, g.tip * w, g.bore * w)
  }

  /**
   * One tooth with (scaled) radii `g`, started at angle `a`: a root arc over
   * one half-pitch, a radial line to the pitch circle, a flank to the tip
   * over a third of a half-pitch, a tip arc over another third, a flank
   * back to the pitch circle over the last third and a radial line down to
   * the root. Arcs carry `w` as their sweep value.
   */
  function Tooth(g: Radii, a: real, w: real): seq<Cmd>
  {
    [ ArcTo(g.root, g.root, w, Polar(g.root, a + 1.0)),
      LineTo(Polar(g.pitch, a + 1.0)),
      LineTo(Polar(g.tip, a + 1.0 + 1.0 / 3.0)),
      ArcTo(g.tip, g.tip, w, Polar(g.tip, a + 1.0 + 2.0 / 3.0)),
      LineTo(Polar(g.pitch, a + 2.0)),
      LineTo(Polar(g.root, a + 2.0)) ]
  }

  /** The angle tooth `j` starts at: one tooth pitch (two steps) per tooth. */
  function ToothAngle(start: real, j: nat): real
  {
    start + 2.0 * j as real
  }

  /** The first `k` teeth, tooth `j` starting at `ToothAngle(start, j)`. */
  function ToothRing(g: Radii, start: real, w: real, k: nat): (r: seq<Cmd>)
    ensures |r| == 6 * k
  {
    if k == 0 then [] else ToothRing(g, start, w, k - 1) + Tooth(g, ToothAngle(start, k - 1), w)
  }

  /**
   * The circle of radius `r` around a gear of `n` teeth: from the top point
   * (0, -r) (-n/2 steps; y grows downwards) through the bottom point (0, r)
   * (n/2 steps) and back, then closed.
   */
  function Circle(r: real, n: nat): seq<Cmd>
  {
    [ MoveTo(Polar(r, -(n as real) / 2.0)),
      ArcTo(r, r, 0.0, Polar(r, (n as real) / 2.0)),
      ArcTo(r, r, 0.0, Polar(r, -(n as real) / 2.0)),
      ClosePath ]
  }

  /** The whole outline of a gear at view width `w`. */
  function GearOutline(gear: GearSpec, w: real): (r: seq<Cmd>)
    requires gear.teeth >= 1
    ensures |r| == 6 * gear.teeth + 5
  {
    var g := Scale(GearRadii(gear.radius, gear.annulus), w);
    var n := gear.teeth;
    var start := StartSteps(n, gear.annulus);
    [MoveTo(Polar(g.root, start))] + ToothRing(g, start, w, n) + Circle(g.bore, n)
  }

  /**
   * The outline generator as the source runs it: pick the radii by
   * reassignment, then walk the angle accumulator `a0` round the gear one
   * tooth per iteration, then append the bore or rim circle.
   */
  method GetGear(gear: GearSpec, viewWidth: real) returns (path: seq<Cmd>)
    requires gear.teeth >= 1
    ensures path == GearOutline(gear, viewWidth)
  {
    var n := gear.teeth;
    var r2 := Abs(gear.radius);
    var r0 := r2 - ToothRadius;
    var r1 := r2 + ToothRadius;
    var r3 := HoleRadius;
    if gear.annulus {
      r3 := r0;
      r0 := r1;
      r1 := r3;
      r3 := r2 + ToothRadius * 3.0;
    }
    assert Radii(r0, r2, r1, r3) == GearRadii(gear.radius, gear.annulus);
    // every radius is written out multiplied by the view width
    var g := Scale(Radii(r0, r2, r1, r3), viewWidth);
    // the half tooth pitch pi/n is one step
    var da := 1.0;
    var a0 := -(n as real) / 2.0 + (if gear.annulus then da else 0.0);
    ghost var start := a0;
    path := [MoveTo(Polar(g.root, a0))];
    var i := 0;
    while i < n
      invariant 0 <= i <= n
      invariant a0 == ToothAngle(start, i)
      invariant path == [MoveTo(Polar(g.root, start))] + ToothRing(g, start, viewWidth, i)
    {
      a0 := a0 + da;
      var rootArc := ArcTo(g.root, g.root, viewWidth, Polar(g.root, a0));
      var up := LineTo(Polar(g.pitch, a0));
      a0 := a0 + da / 3.0;
      var flankOut := LineTo(Polar(g.tip, a0));
      a0 := a0 + da / 3.0;
      var tipArc := ArcTo(g.tip, g.tip, viewWidth, Polar(g.tip, a0));
      a0 := a0 + da / 3.0;
      var flankIn := LineTo(Polar(g.pitch, a0));
      var down := LineTo(Polar(g.root, a0));
      path := path + [rootArc, up, flankOut, tipArc, flankIn, down];
      i := i + 1;
    }
    path := path + Circle(g.bore, n);
  }

  // ---------------------------------------------------------------------
  // Counting

  /** How many letters of `os` are `o`. */
  function Occurrences(os: seq<Op>, o: Op): (k: nat)
    ensures k <= |os|
  {
    if os == [] then 0 else (if os[0] == o then 1 else 0) + Occurrences(os[1..], o)
  }

  lemma {:induction false} OccurrencesAppend(s: seq<Op>, t: seq<Op>, o: Op)
    ensures Occurrences(s + t, o) == Occurrences(s, o) + Occurrences(t, o)
  {
    if s == [] {
      assert s + t == t;
    } else {
      assert (s + t)[1..] == s[1..] + t;
      OccurrencesAppend(s[1..], t, o);
    }
  }

  /** `n` copies of `s`, one after the other. */
  function Repeat<T>(s: seq<T>, n: nat): (r: seq<T>)
    ensures |r| == n * |s|
  {
    if n == 0 then [] else Repeat(s, n - 1) + s
  }

  /** The letters of one tooth. */
  const ToothOps: seq<Op> := [A, L, L, A, L, L]

  /** The letters of the bore or rim circle. */
  const CircleOps: seq<Op> := [M, A, A, Z]

  lemma OpsAppend(s: seq<Cmd>, t: seq<Cmd>)
    ensures Ops(s + t) == Ops(s) + Ops(t)
  {
  }

  lemma {:induction false} ToothRingOps(g: Radii, start: real, w: real, k: nat)
    ensures Ops(ToothRing(g, start, w, k)) == Repeat(ToothOps, k)
  {
    if k > 0 {
      ToothRingOps(g, start, w, k - 1);
      var t := Tooth(g, ToothAngle(start, k - 1), w);
      OpsAppend(ToothRing(g, start, w, k - 1), t);
      assert Ops(t) == ToothOps;
    }
  }

  /**
   * The command skeleton: one move to the first root point, then exactly
   * `teeth` copies of arc, line, line, arc, line, line, then the circle's
   * move, arc, arc, close.
   */
  lemma OutlineSkeleton(gear: GearSpec, w: real)
    requires gear.teeth >= 1
    ensures Ops(GearOutline(gear, w)) == [M] + Repeat(ToothOps, gear.teeth) + CircleOps
    ensures |GearOutline(gear, w)| == 6 * gear.teeth + 5
  {
    var g := Scale(GearRadii(gear.radius, gear.annulus), w);
    var n := gear.teeth;
    var start := StartSteps(n, gear.annulus);
    var first := [MoveTo(Polar(g.root, start))];
    var ring := ToothRing(g, start, w, n);
    ToothRingOps(g, start, w, n);
    OpsAppend(first, ring);
    OpsAppend(first + ring, Circle(g.bore, n));
    assert Ops(Circle(g.bore, n)) == CircleOps;
  }

  /** Letter counts of one tooth and of the circle. */
  lemma SkeletonLetters()
    ensures Occurrences(ToothOps, A) == 2 && Occurrences(ToothOps, L) == 4
    ensures Occurrences(ToothOps, M) == 0 && Occurrences(ToothOps, Z) == 0
    ensures Occurrences(CircleOps, M) == 1 && Occurrences(CircleOps, A) == 2
    ensures Occurrences(CircleOps, L) == 0 && Occurrences(CircleOps, Z) == 1
  {
  }

  /** `n` teeth hold `2n` arcs and `4n` lines, and no move or close. */
  lemma {:induction false} RepeatedToothCounts(n: nat)
    ensures Occurrences(Repeat(ToothOps, n), A) == 2 * n
    ensures Occurrences(Repeat(ToothOps, n), L) == 4 * n
    ensures Occurrences(Repeat(ToothOps, n), M) == 0
    ensures Occurrences(Repeat(ToothOps, n), Z) == 0
  {
    if n > 0 {
      RepeatedToothCounts(n - 1);
      SkeletonLetters();
      OccurrencesAppend(Repeat(ToothOps, n - 1), ToothOps, A);
      OccurrencesAppend(Repeat(ToothOps, n - 1), ToothOps, L);
      OccurrencesAppend(Repeat(ToothOps, n - 1), ToothOps, M);
      OccurrencesAppend(Repeat(ToothOps, n - 1), ToothOps, Z);
    }
  }

  /** Letter counts of the skeleton `[M] + n teeth + circle`. */
  lemma SkeletonCounts(n: nat)
    ensures var body := Repeat(ToothOps, n);
      var os := [M] + body + CircleOps;
      && os[1..6 * n + 1] == body
      && Occurrences(body, A) == 2 * n && Occurrences(body, L) == 4 * n
      && Occurrences(body, M) == 0 && Occurrences(body, Z) == 0
      && Occurrences(os, M) == 2 && Occurrences(os, A) == 2 * n + 2
      && Occurrences(os, L) == 4 * n && Occurrences(os, Z) == 1
  {
    var body := Repeat(ToothOps, n);
    var os := [M] + body + CircleOps;
    assert os[1..6 * n + 1] == body;
    SkeletonLetters();
    RepeatedToothCounts(n);
    OccurrencesAppend([M], body, M);
    OccurrencesAppend([M] + body, CircleOps, M);
    OccurrencesAppend([M], body, A);
    OccurrencesAppend([M] + body, CircleOps, A);
    OccurrencesAppend([M], body, L);
    OccurrencesAppend([M] + body, CircleOps, L);
    OccurrencesAppend([M], body, Z);
    OccurrencesAppend([M] + body, CircleOps, Z);
  }

  /**
   * Command counts: the tooth ring of a gear with `teeth` teeth holds
   * `2 * teeth` arcs and `4 * teeth` lines and no move or close; the whole
   * outline adds two moves, two arcs and one close.
   */
  lemma OutlineCounts(gear: GearSpec, w: real)
    requires gear.teeth >= 1
    ensures var os := Ops(GearOutline(gear, w));
      var n := gear.teeth;
      && Occurrences(os[1..6 * n + 1], A) == 2 * n
      && Occurrences(os[1..6 * n + 1], L) == 4 * n
      && Occurrences(os[1..6 * n + 1], M) == 0
      && Occurrences(os[1..6 * n + 1], Z) == 0
      && Occurrences(os, M) == 2 && Occurrences(os, A) == 2 * n + 2
      && Occurrences(os, L) == 4 * n && Occurrences(os, Z) == 1
  {
    var n := gear.teeth;
    var os := Ops(GearOutline(gear, w));
    var body := Repeat(ToothOps, n);
    OutlineSkeleton(gear, w);
    assert os == [M] + body + CircleOps;
    SkeletonCounts(n);
    assert |os| == 6 * n + 5;
    assert os[1..6 * n + 1] == body;
  }

  /** An arc drawn on the circle of (scaled) radius `r`. */
  predicate IsArcOn(c: Cmd, r: real)
  {
    c.ArcTo? && c.rx == r && c.ry == r && c.to.radius == r
  }

  /** How many commands of `cs` are arcs on the circle of radius `r`. */
  function ArcsOn(cs: seq<Cmd>, r: real): (k: nat)
    ensures k <= |cs|
  {
    if cs == [] then 0 else (if IsArcOn(cs[0], r) then 1 else 0) + ArcsOn(cs[1..], r)
  }

  lemma {:induction false} ArcsOnAppend(s: seq<Cmd>, t: seq<Cmd>, r: real)
    ensures ArcsOn(s + t, r) == ArcsOn(s, r) + ArcsOn(t, r)
  {
    if s == [] {
      assert s + t == t;
    } else {
      assert (s + t)[1..] == s[1..] + t;
      ArcsOnAppend(s[1..], t, r);
    }
  }

  lemma ToothArcsOn(g: Radii, a: real, w: real)
    requires g.root != g.tip
    ensures ArcsOn(Tooth(g, a, w), g.tip) == 1
    ensures ArcsOn(Tooth(g, a, w), g.root) == 1
  {
    var t := Tooth(g, a, w);
    assert t[6..] == [];
    assert t[5..][1..] == t[6..];
    assert ArcsOn(t[5..], g.tip) == 0 && ArcsOn(t[5..], g.root) == 0;
    assert t[4..][1..] == t[5..];
    assert ArcsOn(t[4..], g.tip) == 0 && ArcsOn(t[4..], g.root) == 0;
    assert t[3..][1..] == t[4..];
    assert ArcsOn(t[3..], g.tip) == 1 && ArcsOn(t[3..], g.root) == 0;
    assert t[2..][1..] == t[3..];
    assert ArcsOn(t[2..], g.tip) == 1 && ArcsOn(t[2..], g.root) == 0;
    assert t[1..][1..] == t[2..];
    assert ArcsOn(t[1..], g.tip) == 1 && ArcsOn(t[1..], g.root) == 0;
    assert t[0..][1..] == t[1..];
    assert ArcsOn(t[0..], g.tip) == 1 && ArcsOn(t[0..], g.root) == 1;
    assert t[0..] == t;
  }

  /**
   * Exactly one arc per tooth lies on the tip circle and one on the root
   * circle, whenever the two circles differ.
   */
  lemma {:induction false} ToothRingArcsOn(g: Radii, start: real, w: real, k: nat)
    requires g.root != g.tip
    ensures ArcsOn(ToothRing(g, start, w, k), g.tip) == k
    ensures ArcsOn(ToothRing(g, start, w, k), g.root) == k
  {
    if k > 0 {
      ToothRingArcsOn(g, start, w, k - 1);
      var t := Tooth(g, ToothAngle(start, k - 1), w);
      ArcsOnAppend(ToothRing(g, start, w, k - 1), t, g.tip);
      ArcsOnAppend(ToothRing(g, start, w, k - 1), t, g.root);
      ToothArcsOn(g, ToothAngle(start, k - 1), w);
    }
  }

  // ---------------------------------------------------------------------
  // Geometry of the tooth ring

  /** Command `6*j + p` of the ring is command `p` of tooth `j`. */
  lemma {:induction false} ToothRingAt(g: Radii, start: real, w: real, k: nat, j: nat, p: nat)
    requires j < k && p < 6
    ensures |ToothRing(g, start, w, k)| == 6 * k
    ensures ToothRing(g, start, w, k)[6 * j + p] == Tooth(g, ToothAngle(start, j), w)[p]
  {
    var prev := ToothRing(g, start, w, k - 1);
    if j < k - 1 {
      ToothRingAt(g, start, w, k - 1, j, p);
    } else {
      if k > 1 {
        ToothRingAt(g, start, w, k - 1, 0, 0);
      }
      assert |prev| == 6 * (k - 1);
    }
  }

  /**
   * Closure of a ring of `k` teeth: its last command ends on the root
   * circle `2*k` steps past the start.
   */
  lemma ToothRingEnd(g: Radii, start: real, w: real, k: nat)
    requires k >= 1
    ensures ToothRing(g, start, w, k)[6 * k - 1] == LineTo(Polar(g.root, start + 2.0 * k as real))
  {
    ToothRingAt(g, start, w, k, k - 1, 5);
  }

  /**
   * The tooth-ring sub-path of the outline is closed: it starts with a move
   * to the root circle at the start angle and its last command comes back
   * to the root circle exactly one revolution (2n steps) later. In between
   * there are only lines and arcs, the arcs with the view width as sweep
   * value. The circle sub-path that follows starts at the top point of
   * the bore or rim circle, passes the opposite point and returns to the
   * top point before it closes, with sweep value 0 on both arcs.
   */
  lemma OutlineIsClosed(gear: GearSpec, w: real)
    requires gear.teeth >= 1
    ensures var out := GearOutline(gear, w);
      var g := Scale(GearRadii(gear.radius, gear.annulus), w);
      var n := gear.teeth;
      var start := StartSteps(n, gear.annulus);
      && out[0] == MoveTo(Polar(g.root, start))
      && out[6 * n] == LineTo(Polar(g.root, start + 2.0 * n as real))
      && (forall i :: 1 <= i <= 6 * n ==> out[i].LineTo? || (out[i].ArcTo? && out[i].sweep == w))
      && out[6 * n + 1..] == [ MoveTo(Polar(g.bore, -(n as real) / 2.0)),
                               ArcTo(g.bore, g.bore, 0.0, Polar(g.bore, (n as real) / 2.0)),
                               ArcTo(g.bore, g.bore, 0.0, Polar(g.bore, -(n as real) / 2.0)),
                               ClosePath ]
  {
    var out := GearOutline(gear, w);
    var g := Scale(GearRadii(gear.radius, gear.annulus), w);
    var n := gear.teeth;
    var start := StartSteps(n, gear.annulus);
    var ring := ToothRing(g, start, w, n);
    assert out == [MoveTo(Polar(g.root, start))] + ring + Circle(g.bore, n);
    ToothRingEnd(g, start, w, n);
    assert out[6 * n] == ring[6 * n - 1];
    forall i | 1 <= i <= 6 * n
      ensures out[i].LineTo? || (out[i].ArcTo? && out[i].sweep == w)
    {
      var j := (i - 1) / 6;
      var p := (i - 1) % 6;
      ToothRingAt(g, start, w, n, j, p);
      assert out[i] == ring[6 * j + p];
    }
    assert out[6 * n + 1..] == Circle(g.bore, n);
  }

  /**
   * For a positive view width, the tooth ring of the outline has exactly
   * one arc per tooth on the tip circle and one per tooth on the root
   * circle.
   */
  lemma OutlineArcsOn(gear: GearSpec, w: real)
    requires gear.teeth >= 1 && w > 0.0
    ensures var out := GearOutline(gear, w);
      var g := Scale(GearRadii(gear.radius, gear.annulus), w);
      var n := gear.teeth;
      && ArcsOn(out[1..6 * n + 1], g.tip) == n
      && ArcsOn(out[1..6 * n + 1], g.root) == n
  {
    var out := GearOutline(gear, w);
    var u := GearRadii(gear.radius, gear.annulus);
    var g := Scale(u, w);
    var n := gear.teeth;
    var start := StartSteps(n, gear.annulus);
    var ring := ToothRing(g, start, w, n);
    assert out == [MoveTo(Polar(g.root, start))] + ring + Circle(g.bore, n);
    assert out[1..6 * n + 1] == ring;
    assert g.root != g.tip by {
      assert g.root - g.tip == (u.root - u.tip) * w;
      assert u.root - u.tip != 0.0;
    }
    ToothRingArcsOn(g, start, w, n);
  }

  /** Angle of command `p` of a tooth, in steps past the tooth's start. */
  function Offset(p: nat): real
    requires p < 6
  {
    [1.0, 1.0, 4.0 / 3.0, 5.0 / 3.0, 2.0, 2.0][p]
  }

  /** Angle of command `p` of tooth `j`. */
  function PointSteps(start: real, j: nat, p: nat): real
    requires p < 6
  {
    start + 2.0 * j as real + Offset(p)
  }

  lemma ToothPoint(g: Radii, start: real, w: real, j: nat, p: nat)
    requires p < 6
    ensures var c := Tooth(g, ToothAngle(start, j), w)[p];
      && !c.ClosePath? && !c.MoveTo?
      && c.to.steps == PointSteps(start, j, p)
      && c.to.radius == (if p == 0 || p == 5 then g.root else if p == 2 || p == 3 then g.tip else g.pitch)
  {
  }

  /** Point `i` of the tooth ring, in closed form. */
  lemma OutlinePointAt(gear: GearSpec, w: real, i: nat)
    requires gear.teeth >= 1 && 1 <= i <= 6 * gear.teeth
    ensures var out := GearOutline(gear, w);
      var g := Scale(GearRadii(gear.radius, gear.annulus), w);
      var n := gear.teeth;
      && !out[i].ClosePath? && !out[i].MoveTo?
      && out[i].to.radius in {g.root, g.pitch, g.tip}
      && out[i].to.steps == PointSteps(StartSteps(n, gear.annulus), (i - 1) / 6, (i - 1) % 6)
  {
    var out := GearOutline(gear, w);
    var g := Scale(GearRadii(gear.radius, gear.annulus), w);
    var n := gear.teeth;
    var start := StartSteps(n, gear.annulus);
    var ring := ToothRing(g, start, w, n);
    assert out == [MoveTo(Polar(g.root, start))] + ring + Circle(g.bore, n);
    var j := (i - 1) / 6;
    var p := (i - 1) % 6;
    assert 6 * j + p == i - 1 && j < n;
    ToothRingAt(g, start, w, n, j, p);
    ToothPoint(g, start, w, j, p);
    assert out[i] == ring[i - 1];
    var c := Tooth(g, ToothAngle(start, j), w)[p];
    assert out[i] == c;
    assert c.to.radius == g.root || c.to.radius == g.pitch || c.to.radius == g.tip;
  }

  /** Angles of the tooth ring lie in the half-open revolution after the start. */
  lemma PointStepsBounds(start: real, n: nat, i: nat)
    requires 1 <= i <= 6 * n
    ensures start < PointSteps(start, (i - 1) / 6, (i - 1) % 6) <= start + 2.0 * n as real
  {
  }

  /** Angles of the tooth ring never decrease with the command index. */
  lemma PointStepsAscend(start: real, i: nat, j: nat)
    requires 1 <= i < j
    ensures PointSteps(start, (i - 1) / 6, (i - 1) % 6) <= PointSteps(start, (j - 1) / 6, (j - 1) % 6)
  {
  }

  /**
   * Along the tooth ring every point lies on the root, pitch or tip circle,
   * and the angles never decrease: they run from just past the start angle
   * to exactly one revolution (2n steps) past it.
   */
  lemma OutlineAnglesAscend(gear: GearSpec, w: real)
    requires gear.teeth >= 1
    ensures var out := GearOutline(gear, w);
      var g := Scale(GearRadii(gear.radius, gear.annulus), w);
      var n := gear.teeth;
      var start := StartSteps(n, gear.annulus);
      && (forall i :: 1 <= i <= 6 * n ==>
            && !out[i].ClosePath? && !out[i].MoveTo?
            && out[i].to.radius in {g.root, g.pitch, g.tip}
            && start < out[i].to.steps <= start + 2.0 * n as real)
      && (forall i, j :: 1 <= i < j <= 6 * n ==>
            !out[i].ClosePath? && !out[j].ClosePath? && out[i].to.steps <= out[j].to.steps)
  {
    var out := GearOutline(gear, w);
    var n := gear.teeth;
    var start := StartSteps(n, gear.annulus);
    forall i | 1 <= i <= 6 * n
      ensures !out[i].ClosePath? && !out[i].MoveTo?
      ensures out[i].to.radius in {Scale(GearRadii(gear.radius, gear.annulus), w).root,
                                   Scale(GearRadii(gear.radius, gear.annulus), w).pitch,
                                   Scale(GearRadii(gear.radius, gear.annulus), w).tip}
      ensures start < out[i].to.steps <= start + 2.0 * n as real
    {
      OutlinePointAt(gear, w, i);
      PointStepsBounds(start, n, i);
    }
    forall i, j | 1 <= i < j <= 6 * n
      ensures out[i].to.steps <= out[j].to.steps
    {
      OutlinePointAt(gear, w, i);
      OutlinePointAt(gear, w, j);
      PointStepsAscend(start, i, j);
    }
  }
}
