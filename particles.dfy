/**
 Values shared by the whole particle-field model: points, particle records,
 the ranges of the random draws, the geometry that stays uninterpreted
 (the heart curve, the scatter and force fields, the pulse curve) and the
 integer conversions that turn the pulse into per-frame parameters.
 */
module Particles {

  /** Scale of the base heart (IMAGE_ENLARGE). */
  const ImageEnlarge: real := 11.0
  /** Scale of the halo heart, slightly larger than the base one. */
  const HaloEnlarge: real := 11.6
  /** Scatter strength of the edge diffusion. */
  const EdgeBeta: real := 0.05
  /** Scatter strength of the centre diffusion. */
  const CenterBeta: real := 0.17
  /** Number of curve samples drawn for the base shape. */
  const BaseSamples: nat := 2000
  /** Number of scattered copies drawn per base point for the edge diffusion. */
  const EdgeCopies: nat := 3
  /** Number of scattered samples drawn for the centre diffusion. */
  const CenterSamples: nat := 4000
  /** Largest halo jitter on each axis (randint(-14, 14)). */
  const HaloJitter: nat := 14

  /** A coordinate pair on the canvas. */
  datatype Point = Point(x: real, y: real)

  /** One drawable square: its top-left corner and side length. */
  datatype Particle = Particle(x: real, y: real, size: int)

  /** The value of randint(-1, 1). */
  type Jitter1 = j: int | -1 <= j <= 1
  /** The value of randint(-14, 14). */
  type Jitter14 = j: int | -14 <= j <= 14
  /** An index into the three-element tuple (1, 2, 2). */
  type Choice3 = i: int | 0 <= i < 3
  /** The value of randint(1, 3). */
  type Size3 = s: int | 1 <= s <= 3 witness 1
  /** The value of random(), in [0, 1). */
  type Unit01 = r: real | 0.0 <= r < 1.0

  /**
   The floating-point geometry, left uninterpreted:
   - heart(t, scale): heart_function, the curve point for angle t, scaled and centred;
   - scatter(p, beta, u, v): scatter_inside, with its two random() draws u and v;
   - shrink(p, radius): the centre-attracting pull of the halo;
   - force(p, ratio): the displacement ratio * force * (p - centre) of the breathing step;
   - curve(k): the pulse curve(k / 10 * pi) for frame k.
   */
  datatype Geometry = Geometry(
    heart: (real, real) -> Point,
    scatter: (Point, real, Unit01, Unit01) -> Point,
    shrink: (Point, int) -> Point,
    force: (Point, real) -> Point,
    curve: int -> real)

  /** Python's int() on a float: truncation toward zero. */
  function Trunc(r: real): (n: int)
    ensures r >= 0.0 ==> 0 <= n && n as real <= r < n as real + 1.0
    ensures r < 0.0 ==> n <= 0 && n as real - 1.0 < r <= n as real
  {
    if r >= 0.0 then r.Floor else -((-r).Floor)
  }

  /** The three per-frame quantities derived from the pulse. */
  datatype Pulse = Pulse(ratio: real, haloRadius: int, haloNumber: nat)

  /**
   The pulse parameters of a frame whose curve value is c: the breathing
   ratio, the halo radius int(4 + 6 * (1 + c)) and the halo sample count
   int(3000 + 4000 * |c ** 2|).
   */
  function PulseOf(c: real): (p: Pulse)
    ensures p.haloNumber >= 3000
    ensures p.haloNumber as real <= 3000.0 + 4000.0 * (c * c) < p.haloNumber as real + 1.0
    ensures c >= -10.0 / 6.0 ==> p.haloRadius as real <= 10.0 + 6.0 * c < p.haloRadius as real + 1.0
    ensures c < -10.0 / 6.0 ==> p.haloRadius as real - 1.0 < 10.0 + 6.0 * c <= p.haloRadius as real
  {
    var square := c * c;
    var absSquare := if square < 0.0 then -square else square;
    Pulse(10.0 * c, Trunc(4.0 + 6.0 * (1.0 + c)), Trunc(3000.0 + 4000.0 * absSquare))
  }
}
