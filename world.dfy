/**
 * The records the simulation works on (a rocket, the moving collection target) and what a
 * rocket senses of the target: centre distance, the collection-area test, the instantaneous
 * fitness and the 11 inputs of its neural controller (script.js lines 627-644, 740-810).
 */
module World {
  import opened Numerics

  /** bestDistance is a running minimum that starts at Infinity. */
  datatype Extended = Infinity | Finite(value: real) {
    /** `d < this`: every real is below Infinity. */
    predicate Exceeds(d: real) {
      Infinity? || d < value
    }

    /** `this <= other`: the running minimum has not grown. */
    predicate NoGreaterThan(other: Extended) {
      other.Infinity? || (Finite? && value <= other.value)
    }
  }

  /** The global gameMode: 'training' while evolving, 'vsAI' in the player-versus-AI duel. */
  datatype GameMode = Training | VsAI

  /** The fields of one rocket object, apart from its brain. */
  datatype RocketState = RocketState(
    x: real, y: real,
    speedX: real, speedY: real,
    angle: real, fireAngle: real,
    width: real, height: real,
    thrusting: bool, active: bool,
    lifetime: nat,
    currentFitness: real, fitness: real,
    bestDistance: Extended,
    collectionsReached: nat)

  /** The fields of window.centralCollection. */
  datatype CollectionState = CollectionState(
    x: real, y: real,
    width: real, height: real,
    speedX: real, speedY: real,
    targetSpeedX: real, targetSpeedY: real)

  /** The rocket record createRockets builds for every genome, at the generation's spawn point. */
  function Spawned(spawnX: real, spawnY: real): RocketState {
    RocketState(spawnX, spawnY, 0.0, 0.0, 0.0, 0.0, ROCKET_WIDTH, ROCKET_HEIGHT,
                false, true, 0, 0.0, 0.0, Infinity, 0)
  }

  /** createRockets' shared spawn point, Math.random() * (W - 450) and Math.random() * (H - 280). */
  function SpawnX(rx: real): real {
    rx * (CANVAS_WIDTH - ROCKET_WIDTH)
  }

  function SpawnY(ry: real): real {
    ry * (CANVAS_HEIGHT - ROCKET_HEIGHT)
  }

  /**
   * For random draws in [0, 1) the spawn point lies in [0, W - 450) x [0, H - 280), so a freshly
   * spawned rocket is inside the canvas.
   */
  lemma SpawnInCanvas(rx: real, ry: real)
    requires 0.0 <= rx < 1.0 && 0.0 <= ry < 1.0
    ensures 0.0 <= SpawnX(rx) < CANVAS_WIDTH - ROCKET_WIDTH
    ensures 0.0 <= SpawnY(ry) < CANVAS_HEIGHT - ROCKET_HEIGHT
    ensures InCanvas(Spawned(SpawnX(rx), SpawnY(ry)))
  {
  }

  /** The rocket lies inside the canvas: [0, W - width] x [0, H - height]. */
  predicate InCanvas(s: RocketState) {
    0.0 <= s.x <= CANVAS_WIDTH - s.width && 0.0 <= s.y <= CANVAS_HEIGHT - s.height
  }

  /** Horizontal offset from the rocket's centre to the target's centre. */
  function GapX(s: RocketState, c: CollectionState): real {
    (c.x + c.width / 2.0) - (s.x + s.width / 2.0)
  }

  /** Vertical offset from the rocket's centre to the target's centre. */
  function GapY(s: RocketState, c: CollectionState): real {
    (c.y + c.height / 2.0) - (s.y + s.height / 2.0)
  }

  /** Math.pow(gap, 2) summed over both axes. */
  function SquaredGap(s: RocketState, c: CollectionState, m: MathLib): real {
    m.pow(GapX(s, c), 2.0) + m.pow(GapY(s, c), 2.0)
  }

  /** calculateDistanceToTarget: the Euclidean distance between the two centres. */
  function DistanceToTarget(s: RocketState, c: CollectionState, m: MathLib): real {
    m.sqrt(SquaredGap(s, c, m))
  }

  /** isInCollectionArea: the centres are closer than COLLECTION_RADIUS. */
  predicate IsInCollectionArea(s: RocketState, c: CollectionState, m: MathLib) {
    DistanceToTarget(s, c, m) < COLLECTION_RADIUS
  }

  /** calculateFitness: 1000 * e^(-distance / 100). */
  function CalculateFitness(s: RocketState, c: CollectionState, m: MathLib): real {
    1000.0 * m.exp(-DistanceToTarget(s, c, m) / 100.0)
  }

  /** Direction from the rocket's centre to the target's centre, as a fraction of a turn. */
  function Bearing(s: RocketState, c: CollectionState, m: MathLib): real {
    m.atan2(GapY(s, c), GapX(s, c)) / TURN
  }

  /** The rocket's heading with whole turns removed (JavaScript `%`), as a fraction of a turn. */
  function Heading(s: RocketState): (h: real)
    ensures -1.0 < h < 1.0
    ensures s.angle >= 0.0 ==> h >= 0.0
    ensures s.angle <= 0.0 ==> h <= 0.0
  {
    var r := TurnRemainder(s.angle);
    RemainderInTurn(r);
    r / TURN
  }

  lemma RemainderInTurn(r: real)
    requires -TURN < r < TURN
    ensures -1.0 < r / TURN < 1.0
    ensures r >= 0.0 ==> r / TURN >= 0.0
    ensures r <= 0.0 ==> r / TURN <= 0.0
  {
  }

  /** atan2(sin d, cos d) of the bearing minus the heading: their difference wrapped into one turn. */
  function AngleDifference(s: RocketState, c: CollectionState, m: MathLib): real {
    var difference := Bearing(s, c, m) - Heading(s);
    m.atan2(m.sin(difference), m.cos(difference))
  }

  /**
   * calculateNeuralInputs: centre offsets scaled by the canvas, velocity over 10, bearing to
   * the target and own heading as fractions of a turn, their wrapped difference, and the
   * clearances to the left, right, top and bottom walls scaled by the canvas.
   */
  function NeuralInputs(s: RocketState, c: CollectionState, m: MathLib): (v: seq<real>)
    ensures |v| == 11
    ensures v[0] * CANVAS_WIDTH == GapX(s, c) && v[1] * CANVAS_HEIGHT == GapY(s, c)
    ensures v[2] * ASSUMED_MAX_SPEED == s.speedX && v[3] * ASSUMED_MAX_SPEED == s.speedY
    ensures v[4] == Bearing(s, c, m) && v[5] == Heading(s) && v[6] == AngleDifference(s, c, m)
    ensures v[7] * CANVAS_WIDTH == s.x && v[8] * CANVAS_WIDTH == CANVAS_WIDTH - (s.x + s.width)
    ensures v[9] * CANVAS_HEIGHT == s.y && v[10] * CANVAS_HEIGHT == CANVAS_HEIGHT - (s.y + s.height)
    ensures v[7] + v[8] == 1.0 - s.width / CANVAS_WIDTH
    ensures v[9] + v[10] == 1.0 - s.height / CANVAS_HEIGHT
    ensures InCanvas(s) <==> 0.0 <= v[7] && 0.0 <= v[8] && 0.0 <= v[9] && 0.0 <= v[10]
  {
    [ GapX(s, c) / CANVAS_WIDTH,
      GapY(s, c) / CANVAS_HEIGHT,
      s.speedX / ASSUMED_MAX_SPEED,
      s.speedY / ASSUMED_MAX_SPEED,
      Bearing(s, c, m),
      Heading(s),
      AngleDifference(s, c, m),
      s.x / CANVAS_WIDTH,
      (CANVAS_WIDTH - (s.x + s.width)) / CANVAS_WIDTH,
      s.y / CANVAS_HEIGHT,
      (CANVAS_HEIGHT - (s.y + s.height)) / CANVAS_HEIGHT ]
  }

  /**
   * With a lawful atan2 every angle sensor is bounded: the bearing lies in (-1/2, 1/2] of a
   * turn, the heading in (-1, 1), and the wrapped difference in (-PI, PI].
   */
  lemma NeuralInputAngles(s: RocketState, c: CollectionState, m: MathLib)
    requires LawfulAtan2(m)
    ensures var v := NeuralInputs(s, c, m);
      && -0.5 < v[4] <= 0.5
      && -1.0 < v[5] < 1.0
      && -PI < v[6] <= PI
  {
    var a := m.atan2(GapY(s, c), GapX(s, c));
    DivideByTurn(a);
    var difference := Bearing(s, c, m) - Heading(s);
    Atan2Range(m, m.sin(difference), m.cos(difference));
  }

  lemma Atan2Range(m: MathLib, y: real, x: real)
    requires LawfulAtan2(m)
    ensures -PI < m.atan2(y, x) <= PI
  {
  }

  lemma DivideByTurn(a: real)
    requires -PI < a <= PI
    ensures -0.5 < a / TURN <= 0.5
  {
  }

  /** The distance is non-negative, and 0 exactly when the two centres coincide. */
  lemma DistanceIsRoot(s: RocketState, c: CollectionState, m: MathLib)
    requires LawfulSqrt(m) && LawfulPow(m)
    ensures DistanceToTarget(s, c, m) >= 0.0
    ensures DistanceToTarget(s, c, m) == 0.0 <==> GapX(s, c) == 0.0 && GapY(s, c) == 0.0
  {
    var gx, gy := m.pow(GapX(s, c), 2.0), m.pow(GapY(s, c), 2.0);
    assert gx >= 0.0 && gy >= 0.0;
    var sg := SquaredGap(s, c, m);
    if sg > 0.0 {
      assert m.sqrt(0.0) < m.sqrt(sg);
    }
  }

  /** isInCollectionArea is the squared-distance test gap^2 < COLLECTION_RADIUS^2. */
  lemma InCollectionAreaIff(s: RocketState, c: CollectionState, m: MathLib)
    requires LawfulSqrt(m) && LawfulPow(m)
    ensures IsInCollectionArea(s, c, m) <==> SquaredGap(s, c, m) < COLLECTION_RADIUS * COLLECTION_RADIUS
  {
    var sg := SquaredGap(s, c, m);
    var rr := COLLECTION_RADIUS * COLLECTION_RADIUS;
    assert m.pow(GapX(s, c), 2.0) >= 0.0 && m.pow(GapY(s, c), 2.0) >= 0.0;
    if sg < rr {
      assert m.sqrt(sg) < m.sqrt(rr);
    } else if sg > rr {
      assert m.sqrt(rr) < m.sqrt(sg);
    }
  }

  /** The instantaneous fitness lies in (0, 1000] and is exactly 1000 when the centres meet. */
  lemma FitnessRange(s: RocketState, c: CollectionState, m: MathLib)
    requires LawfulSqrt(m) && LawfulPow(m) && LawfulExp(m)
    ensures 0.0 < CalculateFitness(s, c, m) <= 1000.0
    ensures GapX(s, c) == 0.0 && GapY(s, c) == 0.0 ==> CalculateFitness(s, c, m) == 1000.0
  {
    DistanceIsRoot(s, c, m);
    var d := DistanceToTarget(s, c, m);
    assert -d / 100.0 <= 0.0;
    assert m.exp(-d / 100.0) <= m.exp(0.0);
    assert m.exp(-d / 100.0) > 0.0;
  }

  /** A rocket nearer the target never scores a lower instantaneous fitness. */
  lemma CloserIsFitter(s1: RocketState, s2: RocketState, c: CollectionState, m: MathLib)
    requires LawfulExp(m)
    requires DistanceToTarget(s1, c, m) <= DistanceToTarget(s2, c, m)
    ensures CalculateFitness(s1, c, m) >= CalculateFitness(s2, c, m)
  {
    var d1, d2 := DistanceToTarget(s1, c, m), DistanceToTarget(s2, c, m);
    assert -d2 / 100.0 <= -d1 / 100.0;
    assert m.exp(-d2 / 100.0) <= m.exp(-d1 / 100.0);
  }
}
