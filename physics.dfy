/**
 * One frame of a rocket, as pure functions of its record: decoding the network's outputs
 * (applyNetworkOutputs), integration (updatePosition), the two-mode boundary policy
 * (keepRocketInBounds) and the score bookkeeping updateRockets does for an active rocket.
 * The Rocket class applies these to its fields in place.
 */
module Physics {
  import opened Numerics
  import opened World
  import opened Neat

  /** `outputs[k] > 0.5`; a missing output is undefined in JavaScript and compares false. */
  predicate Fires(outputs: seq<real>, k: nat) {
    k < |outputs| && outputs[k] > 0.5
  }

  /** The rotation command: outputs[1] turns left, else outputs[2] turns right, else neither. */
  datatype Turn = TurnLeft | TurnRight | Hold

  function Steering(outputs: seq<real>): Turn {
    if Fires(outputs, 1) then TurnLeft
    else if Fires(outputs, 2) then TurnRight
    else Hold
  }

  /** The heading after the rotation command, before the upright correction. */
  function Rotated(s: RocketState, turn: Turn, dt: real): real {
    match turn
    case TurnLeft => s.angle - TARGET_ROTATION_SPEED * dt
    case TurnRight => s.angle + TARGET_ROTATION_SPEED * dt
    case Hold => s.angle
  }

  /** The fire angle after the rotation command: it leans with a turn and relaxes toward 0 otherwise. */
  function NextFireAngle(fireAngle: real, turn: Turn, dt: real): real {
    match turn
    case TurnLeft => Min(fireAngle + FIRE_ANGLE_RATE * dt, MAX_FIRE_ANGLE)
    case TurnRight => Max(fireAngle - FIRE_ANGLE_RATE * dt, -MAX_FIRE_ANGLE)
    case Hold => fireAngle + (0.0 - fireAngle) * FIRE_ANGLE_RATE * dt
  }

  /** The thrust step: thrusting follows outputs[0], and thrust pushes along the heading. */
  function Thrust(s: RocketState, outputs: seq<real>, dt: real, m: MathLib): RocketState {
    var thrusting := Fires(outputs, 0);
    s.(thrusting := thrusting,
       speedX := if thrusting then s.speedX + THRUST * m.sin(s.angle) * dt else s.speedX,
       speedY := if thrusting then s.speedY - THRUST * m.cos(s.angle) * dt else s.speedY)
  }

  /** The rotation step: heading and fire angle follow the rotation command. */
  function Turned(s: RocketState, turn: Turn, dt: real): RocketState {
    s.(angle := Rotated(s, turn, dt), fireAngle := NextFireAngle(s.fireAngle, turn, dt))
  }

  /** The upright correction: in the collection area a tenth of the heading is removed. */
  function Uprighted(s: RocketState, inArea: bool): RocketState {
    if inArea then s.(angle := s.angle + -s.angle * UPRIGHT_CORRECTION) else s
  }

  /**
   * applyNetworkOutputs: thrust along the heading when outputs[0] fires, rotate per Steering,
   * and, when the rocket was in the collection area on entry, remove a tenth of the heading.
   */
  function ApplyNetworkOutputs(s: RocketState, outputs: seq<real>, dt: real, c: CollectionState, m: MathLib): (r: RocketState)
    ensures r.(thrusting := s.thrusting, speedX := s.speedX, speedY := s.speedY, angle := s.angle, fireAngle := s.fireAngle) == s
  {
    Uprighted(Turned(Thrust(s, outputs, dt, m), Steering(outputs), dt), IsInCollectionArea(s, c, m))
  }

  /**
   * updatePosition: move by the current speed, apply drag to speedX and gravity to speedY.
   * Nothing but position and speed changes.
   */
  function UpdatePosition(s: RocketState, dt: real, m: MathLib): (r: RocketState)
    ensures r.(x := s.x, y := s.y, speedX := s.speedX, speedY := s.speedY) == s
  {
    s.(x := s.x + s.speedX * dt,
       y := s.y + s.speedY * dt,
       speedX := s.speedX * m.pow(DRAG, dt),
       speedY := s.speedY + GRAVITY * dt)
  }

  /** The position pulled back into [0, W - width] x [0, H - height]. */
  function ClampToCanvas(s: RocketState): RocketState {
    s.(x := Clamp(0.0, s.x, CANVAS_WIDTH - s.width),
       y := Clamp(0.0, s.y, CANVAS_HEIGHT - s.height))
  }

  /**
   * keepRocketInBounds. In the duel the rocket is clamped and loses its speed on each axis
   * where it sits on a wall. In training a rocket that left the canvas is switched off,
   * clamped and stopped; one inside is left alone. Either way only position, speed and
   * `active` can change, a rocket is never switched on, and one that fits ends inside.
   */
  function KeepRocketInBounds(s: RocketState, mode: GameMode): (r: RocketState)
    ensures r.(x := s.x, y := s.y, speedX := s.speedX, speedY := s.speedY, active := s.active) == s
    ensures r.active ==> s.active
    ensures s.width <= CANVAS_WIDTH && s.height <= CANVAS_HEIGHT ==> InCanvas(r)
  {
    match mode
    case VsAI =>
      var t := ClampToCanvas(s);
      t.(speedX := if t.x <= 0.0 || t.x >= CANVAS_WIDTH - t.width then 0.0 else t.speedX,
         speedY := if t.y <= 0.0 || t.y >= CANVAS_HEIGHT - t.height then 0.0 else t.speedY)
    case Training =>
      if !InCanvas(s) then
        ClampToCanvas(s).(active := false, speedX := 0.0, speedY := 0.0)
      else
        s
  }

  /** The flight part of a frame: one more frame of life, then control, integration and bounds. */
  function Fly(s: RocketState, outputs: seq<real>, dt: real, mode: GameMode, c: CollectionState, m: MathLib): RocketState {
    KeepRocketInBounds(UpdatePosition(ApplyNetworkOutputs(s, outputs, dt, c, m), dt, m), mode)
  }

  /**
   * The score part of a frame: the running minimum distance, the instantaneous fitness, the
   * best fitness so far and the count of frames spent in the collection area.
   */
  function Score(s: RocketState, c: CollectionState, m: MathLib): RocketState {
    var d := DistanceToTarget(s, c, m);
    var current := CalculateFitness(s, c, m);
    s.(bestDistance := if s.bestDistance.Exceeds(d) then Finite(d) else s.bestDistance,
       currentFitness := current,
       fitness := Max(s.fitness, current),
       collectionsReached := if IsInCollectionArea(s, c, m) then s.collectionsReached + 1 else s.collectionsReached)
  }

  /** The sensor inputs a rocket feeds its network in this frame (after its lifetime is bumped). */
  function Aged(s: RocketState): RocketState {
    s.(lifetime := s.lifetime + 1)
  }

  /**
   * The body of updateRockets' forEach for one rocket: inactive rockets are skipped;
   * `outputs` is what the rocket's brain computes from NeuralInputs(Aged(s), c, m). A frame
   * never switches a rocket on and never changes its size.
   */
  function Tick(s: RocketState, outputs: seq<real>, dt: real, mode: GameMode, c: CollectionState, m: MathLib): (r: RocketState)
    ensures r.active ==> s.active
    ensures r.width == s.width && r.height == s.height
  {
    if !s.active then s
    else Score(Fly(Aged(s), outputs, dt, mode, c, m), c, m)
  }

  /** One frame of a rocket whose brain holds `net`: its outputs are the network's answer to the sensors. */
  function RocketFrame(s: RocketState, net: Network, activate: Activation, dt: real, mode: GameMode, c: CollectionState, m: MathLib): RocketState {
    Tick(s, activate(net, NeuralInputs(Aged(s), c, m)), dt, mode, c, m)
  }

  /**
   * Decoding the outputs: thrust exactly when outputs[0] fires, no speed change without it,
   * a left turn whenever outputs[1] fires whatever outputs[2] says, and a heading that moves
   * the commanded way when the rocket is outside the collection area.
   */
  lemma ControlDecoding(s: RocketState, outputs: seq<real>, dt: real, c: CollectionState, m: MathLib)
    requires dt > 0.0
    ensures var r := ApplyNetworkOutputs(s, outputs, dt, c, m);
      && (r.thrusting <==> Fires(outputs, 0))
      && (!r.thrusting ==> r.speedX == s.speedX && r.speedY == s.speedY)
      && (Steering(outputs) == TurnLeft <==> Fires(outputs, 1))
      && (Steering(outputs) == TurnRight <==> !Fires(outputs, 1) && Fires(outputs, 2))
      && (!IsInCollectionArea(s, c, m) ==>
            && (Fires(outputs, 1) ==> r.angle < s.angle && r.fireAngle <= MAX_FIRE_ANGLE)
            && (!Fires(outputs, 1) && Fires(outputs, 2) ==> r.angle > s.angle && r.fireAngle >= -MAX_FIRE_ANGLE)
            && (!Fires(outputs, 1) && !Fires(outputs, 2) ==> r.angle == s.angle))
      && r.x == s.x && r.y == s.y && r.active == s.active && r.lifetime == s.lifetime
  {
  }

  /** In the collection area the final heading is 0.9 times the rotated heading, so it shrinks toward upright. */
  lemma UprightCorrection(s: RocketState, outputs: seq<real>, dt: real, c: CollectionState, m: MathLib)
    requires IsInCollectionArea(s, c, m)
    ensures var r := ApplyNetworkOutputs(s, outputs, dt, c, m);
      var a := Rotated(s, Steering(outputs), dt);
      && r.angle == 0.9 * a
      && (a >= 0.0 ==> 0.0 <= r.angle <= a)
      && (a <= 0.0 ==> a <= r.angle <= 0.0)
  {
  }

  /**
   * The fire angle stays within [-MAX_FIRE_ANGLE, MAX_FIRE_ANGLE] for any frame length up to
   * 10: a turn clamps it, and relaxing moves it toward 0 by at most all of it.
   */
  lemma {:induction false} FireAngleBounded(fireAngle: real, turn: Turn, dt: real)
    requires -MAX_FIRE_ANGLE <= fireAngle <= MAX_FIRE_ANGLE
    requires 0.0 <= dt <= 10.0
    ensures -MAX_FIRE_ANGLE <= NextFireAngle(fireAngle, turn, dt) <= MAX_FIRE_ANGLE
  {
    if turn == Hold {
      Relax(fireAngle, FIRE_ANGLE_RATE * dt);
      assert (0.0 - fireAngle) * FIRE_ANGLE_RATE * dt == -(fireAngle * (FIRE_ANGLE_RATE * dt));
    }
  }

  /** Removing a share k in [0, 1] of f leaves a value between 0 and f. */
  lemma Relax(f: real, k: real)
    requires 0.0 <= k <= 1.0
    ensures f >= 0.0 ==> 0.0 <= f - f * k <= f
    ensures f <= 0.0 ==> f <= f - f * k <= 0.0
  {
    if f > 0.0 {
      ScaleMonotone(f, 0.0, k);
      ScaleMonotone(f, k, 1.0);
    } else if f < 0.0 {
      ScaleMonotone(-f, 0.0, k);
      ScaleMonotone(-f, k, 1.0);
      assert (-f) * k == -(f * k);
    } else {
      assert f * k == 0.0 * k;
    }
  }

  /** With DRAG = 1 the horizontal speed is kept, while gravity adds 0.4 * dt to the vertical speed. */
  lemma NoDrag(s: RocketState, dt: real, m: MathLib)
    requires LawfulPow(m)
    ensures var r := UpdatePosition(s, dt, m);
      && r.speedX == s.speedX
      && r.speedY - s.speedY == GRAVITY * dt
      && r.x - s.x == s.speedX * dt && r.y - s.y == s.speedY * dt
      && r.angle == s.angle && r.active == s.active
  {
    assert m.pow(1.0, dt) == 1.0;
  }

  /**
   * Training mode: a rocket strictly outside [0, W - width] x [0, H - height] ends inactive,
   * clamped and with both speeds 0; a rocket inside is left completely unchanged; a rocket
   * that fits the canvas always ends inside it.
   */
  lemma TrainingBoundary(s: RocketState)
    ensures var r := KeepRocketInBounds(s, Training);
      && (!InCanvas(s) ==>
            && !r.active && r.speedX == 0.0 && r.speedY == 0.0
            && r.x == Clamp(0.0, s.x, CANVAS_WIDTH - s.width)
            && r.y == Clamp(0.0, s.y, CANVAS_HEIGHT - s.height))
      && (InCanvas(s) ==> r == s)
      && (s.width <= CANVAS_WIDTH && s.height <= CANVAS_HEIGHT ==> InCanvas(r))
      && r.active == (s.active && InCanvas(s))
  {
  }

  /**
   * Duel mode: `active` is never touched, the position is clamped into the canvas (a rocket
   * that fits it ends inside it), and each speed is zeroed exactly when the clamped position
   * sits on that axis's bound.
   */
  lemma VsAIBoundary(s: RocketState)
    ensures var r := KeepRocketInBounds(s, VsAI);
      && r.active == s.active
      && r.x == Clamp(0.0, s.x, CANVAS_WIDTH - s.width)
      && r.y == Clamp(0.0, s.y, CANVAS_HEIGHT - s.height)
      && (s.width <= CANVAS_WIDTH && s.height <= CANVAS_HEIGHT ==> InCanvas(r))
      && (r.x <= 0.0 || r.x >= CANVAS_WIDTH - s.width ==> r.speedX == 0.0)
      && (0.0 < r.x < CANVAS_WIDTH - s.width ==> r.speedX == s.speedX && r.x == s.x)
      && (r.y <= 0.0 || r.y >= CANVAS_HEIGHT - s.height ==> r.speedY == 0.0)
      && (0.0 < r.y < CANVAS_HEIGHT - s.height ==> r.speedY == s.speedY && r.y == s.y)
  {
  }

  /**
   * The bookkeeping of one frame of an active rocket: lifetime grows by 1, fitness is the
   * larger of the old fitness and the new instantaneous fitness, bestDistance becomes the
   * smaller of its old value and the current distance, and collectionsReached grows by 1
   * exactly when the rocket ends the frame in the collection area.
   */
  lemma TickBookkeeping(s: RocketState, outputs: seq<real>, dt: real, mode: GameMode, c: CollectionState, m: MathLib)
    requires s.active
    ensures var r := Tick(s, outputs, dt, mode, c, m);
      && r.lifetime == s.lifetime + 1
      && r.fitness == Max(s.fitness, r.currentFitness) && r.fitness >= s.fitness
      && r.currentFitness == CalculateFitness(r, c, m)
      && (r.bestDistance == s.bestDistance || r.bestDistance == Finite(DistanceToTarget(r, c, m)))
      && r.bestDistance.NoGreaterThan(s.bestDistance)
      && r.bestDistance.Finite? && r.bestDistance.value <= DistanceToTarget(r, c, m)
      && (r.collectionsReached == s.collectionsReached + 1 <==> IsInCollectionArea(r, c, m))
      && (r.collectionsReached == s.collectionsReached <==> !IsInCollectionArea(r, c, m))
  {
  }

  /** updateRockets skips an inactive rocket entirely. */
  lemma TickInactive(s: RocketState, outputs: seq<real>, dt: real, mode: GameMode, c: CollectionState, m: MathLib)
    requires !s.active
    ensures Tick(s, outputs, dt, mode, c, m) == s
  {
  }

  /**
   * In training an active rocket stays active exactly when its flight leaves it inside the
   * canvas; in the duel a frame never switches a rocket off.
   */
  lemma TickDeactivation(s: RocketState, outputs: seq<real>, dt: real, mode: GameMode, c: CollectionState, m: MathLib)
    requires s.active
    ensures var flown := UpdatePosition(ApplyNetworkOutputs(Aged(s), outputs, dt, c, m), dt, m);
      var r := Tick(s, outputs, dt, mode, c, m);
      && (mode == Training ==> (r.active <==> InCanvas(flown)))
      && (mode == VsAI ==> r.active)
  {
  }
}
