/**
 * The gear descriptors of the epicyclic train: one internal ring gear
 * (annulus), the central sun pinion and three planet pinions.
 *
 * Radii are in units of the view width; origins are already multiplied by
 * the view width. The two trigonometric constants of the layout,
 * sin(2*pi/3) and cos(2*pi/3), are passed in as `x` and `y`.
 */
module GearTable {

  /** A point of the layout in Cartesian coordinates. */
  datatype Point = Point(x: real, y: real)

  /** One gear: fill colour, tooth count, signed pitch radius, centre and ring flag. */
  datatype GearSpec = GearSpec(fill: string, teeth: nat, radius: real, origin: Point, annulus: bool)

  /** Math.abs on ideal reals. */
  function Abs(v: real): (r: real)
    ensures r >= 0.0 && (r == v || r == -v)
  {
    if v < 0.0 then -v else v
  }

  /** A descriptor the outline generator and the transforms can use. */
  predicate WellFormed(g: GearSpec)
  {
    g.teeth >= 1 && g.radius != 0.0
  }

  /** Planets sit at this distance (in view widths) from the centre. */
  const PlanetDistance: real := 0.3

  /** The fixed gear table; `x` = sin(2*pi/3), `y` = cos(2*pi/3). */
  function Gears(viewWidth: real, x: real, y: real): (gs: seq<GearSpec>)
    ensures |gs| == 5
    ensures forall i :: 0 <= i < |gs| ==> WellFormed(gs[i])
    ensures gs[0].annulus && forall i :: 1 <= i < |gs| ==> !gs[i].annulus
    ensures gs[0].origin == gs[1].origin == Point(0.0, 0.0)
  {
    [ GearSpec("#c6dbef", 80, -0.5, Point(0.0, 0.0), true),
      GearSpec("#6baed6", 16, 0.1, Point(0.0, 0.0), false),
      GearSpec("#9ecae1", 32, -0.2, Point(0.0, -PlanetDistance * viewWidth), false),
      GearSpec("#9ecae1", 32, -0.2, Point(-PlanetDistance * x * viewWidth, -PlanetDistance * y * viewWidth), false),
      GearSpec("#9ecae1", 32, -0.2, Point(PlanetDistance * x * viewWidth, -PlanetDistance * y * viewWidth), false) ]
  }

  /** Every gear of the table has the same tooth pitch: 160 teeth per unit of radius. */
  lemma ToothPitchIsUniform(viewWidth: real, x: real, y: real)
    ensures forall g :: g in Gears(viewWidth, x, y) ==> g.teeth as real == 160.0 * Abs(g.radius)
  {
  }

  /**
   * The train fits together: the ring's pitch radius is the sun's plus two
   * planets', and each planet centre lies at the sun's plus the planet's
   * radius from the centre (and the ring's minus the planet's), provided
   * x and y are the sine and cosine of one angle.
   */
  lemma TrainFitsTogether(viewWidth: real, x: real, y: real)
    requires x * x + y * y == 1.0
    ensures var gs := Gears(viewWidth, x, y);
      && Abs(gs[0].radius) == Abs(gs[1].radius) + 2.0 * Abs(gs[2].radius)
      && forall i :: 2 <= i < |gs| ==>
           && Abs(gs[i].radius) == Abs(gs[2].radius)
           && PlanetDistance == Abs(gs[1].radius) + Abs(gs[i].radius)
           && PlanetDistance == Abs(gs[0].radius) - Abs(gs[i].radius)
           && gs[i].origin.x * gs[i].origin.x + gs[i].origin.y * gs[i].origin.y
              == (PlanetDistance * viewWidth) * (PlanetDistance * viewWidth)
  {
  }
}
