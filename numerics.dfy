/**
 * The constants of Rocket-Neural/script.js and the numeric primitives the script borrows
 * from JavaScript's Math object.
 *
 * Coordinates, speeds and angles are reals. Math.sqrt, Math.pow, Math.exp, Math.sin,
 * Math.cos and Math.atan2 are not defined here: they are handed to the model as a `MathLib` value, and
 * the few laws some lemmas need of them are stated as the `Lawful...` predicates.
 */
module Numerics {

  // Canvas and physics (script.js lines 1-8)
  const CANVAS_WIDTH: real := 1920.0
  const CANVAS_HEIGHT: real := 1080.0
  const GRAVITY: real := 0.4
  const THRUST: real := 1.0
  /** Horizontal speed is multiplied by DRAG^deltaTime every tick; 1 means no drag. */
  const DRAG: real := 1.0
  /** Math.PI, written out as the decimal the double prints as. */
  const PI: real := 3.141592653589793
  const TARGET_ROTATION_SPEED: real := PI / 180.0 * 2.0
  const MAX_FIRE_ANGLE: real := PI / 6.0

  // Evolution (script.js lines 9, 11 and 508)
  const POPULATION_SIZE: nat := 500
  /** Math.round(0.1 * POPULATION_SIZE). */
  const ELITISM: nat := 50
  const LIFESPAN: int := 1000

  // The moving collection target (script.js lines 12, 20-22, 93, 491-492)
  const COLLECTION_RADIUS: real := 10.0
  const COLLECTION_MAX_SPEED: real := 5.0
  const COLLECTION_ACCELERATION: real := 0.1
  const SUDDEN_MOVEMENT_CHANCE: real := 0.02
  /** The local CENTER_MARGIN of updateCollectionPosition: a 20% border the target stays out of. */
  const COLLECTION_MARGIN: real := 0.2
  const COLLECTION_WIDTH: real := 350.0
  const COLLECTION_HEIGHT: real := 260.0

  // Rockets (script.js lines 38, 574-575, 594-595, 777, 825, 835)
  const ROCKET_WIDTH: real := 450.0
  const ROCKET_HEIGHT: real := 280.0
  /** Twenty seconds at 60 frames per second. */
  const WIN_TIME: nat := 1200
  /** The "assume max speed is 10" divisor of the velocity sensors. */
  const ASSUMED_MAX_SPEED: real := 10.0
  /** Rate at which the fire angle follows a turn, and at which it relaxes back to 0. */
  const FIRE_ANGLE_RATE: real := 0.1
  /** Share of the heading removed per tick while the rocket is in the collection area. */
  const UPRIGHT_CORRECTION: real := 0.1

  /** The JavaScript Math functions the core calls, as values. */
  datatype MathLib = MathLib(
    sqrt: real -> real,
    pow: (real, real) -> real,
    exp: real -> real,
    sin: real -> real,
    cos: real -> real,
    atan2: (real, real) -> real)

  /**
   * Math.sqrt on non-negative arguments: a non-negative root, sqrt(0) = 0, strictly
   * increasing, and exact on the square of the collection radius.
   */
  ghost predicate LawfulSqrt(m: MathLib) {
    && m.sqrt(0.0) == 0.0
    && m.sqrt(COLLECTION_RADIUS * COLLECTION_RADIUS) == COLLECTION_RADIUS
    && (forall v :: v >= 0.0 ==> m.sqrt(v) >= 0.0)
    && (forall u, v :: 0.0 <= u < v ==> m.sqrt(u) < m.sqrt(v))
  }

  /**
   * Math.pow as the script uses it: a square is non-negative and 0 only at 0, and any power
   * of 1 is 1.
   */
  ghost predicate LawfulPow(m: MathLib) {
    && (forall x :: m.pow(x, 2.0) >= 0.0 && (m.pow(x, 2.0) == 0.0 <==> x == 0.0))
    && (forall t :: m.pow(1.0, t) == 1.0)
  }

  /** Math.exp is positive, monotone, and exp(0) = 1. */
  ghost predicate LawfulExp(m: MathLib) {
    && m.exp(0.0) == 1.0
    && (forall v :: m.exp(v) > 0.0)
    && (forall u, v :: u <= v ==> m.exp(u) <= m.exp(v))
  }

  /** Math.atan2 returns an angle in (-PI, PI]. */
  ghost predicate LawfulAtan2(m: MathLib) {
    forall y, x :: -PI < m.atan2(y, x) <= PI
  }

  function Min(a: real, b: real): real { if a <= b then a else b }

  function Max(a: real, b: real): real { if a >= b then a else b }

  /**
   * Math.max(lo, Math.min(v, hi)), the clamp the script writes out at every bound it keeps.
   * When the interval is empty (lo > hi) the result is lo, as in JavaScript.
   */
  function Clamp(lo: real, v: real, hi: real): (r: real)
    ensures lo <= hi ==> lo <= r <= hi
    ensures lo <= v <= hi ==> r == v
    ensures v <= lo ==> r == lo
    ensures lo <= hi <= v ==> r == hi
    ensures lo > hi ==> r == lo
  {
    Max(lo, Min(v, hi))
  }

  /** The integer part of q, rounding toward zero. */
  function Trunc(q: real): int {
    if q >= 0.0 then q.Floor else -((-q).Floor)
  }

  /** What truncation toward zero leaves of q: a fraction with the sign of q. */
  function Fraction(q: real): (f: real)
    ensures -1.0 < f < 1.0
    ensures q >= 0.0 ==> f >= 0.0
    ensures q <= 0.0 ==> f <= 0.0
    ensures -1.0 < q < 1.0 ==> f == q
    ensures q - f == Trunc(q) as real
  {
    if q >= 0.0 then
      assert q.Floor as real <= q < q.Floor as real + 1.0;
      q - q.Floor as real
    else
      assert (-q).Floor as real <= -q < (-q).Floor as real + 1.0;
      q + (-q).Floor as real
  }

  /** One full turn, 2 * Math.PI. */
  const TURN: real := 2.0 * PI

  /**
   * JavaScript's `a % (2 * Math.PI)`: what is left of a once the whole turns of a / TURN,
   * rounded toward zero, are taken away, so the result has the sign of the dividend (Dafny's
   * own `%` is Euclidean and defined on integers only).
   */
  function TurnRemainder(a: real): (r: real)
    ensures -TURN < r < TURN
    ensures a >= 0.0 ==> r >= 0.0
    ensures a <= 0.0 ==> r <= 0.0
    ensures -TURN < a < TURN ==> r == a
    ensures a - r == Trunc(a / TURN) as real * TURN
  {
    var f := Fraction(a / TURN);
    assert -TURN < a < TURN ==> -1.0 < a / TURN < 1.0;
    TURN * f
  }

  /** Multiplying by a positive factor keeps the order of reals. */
  lemma ScaleMonotone(m: real, u: real, v: real)
    requires m > 0.0 && u <= v
    ensures m * u <= m * v
    ensures u < v ==> m * u < m * v
  {
    assert m * v - m * u == m * (v - u);
  }
}
