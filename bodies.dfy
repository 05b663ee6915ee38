/**
 * The two kinds of moving body of the training simulation, as objects whose fields the
 * script updates in place: a rocket (one per genome) and window.centralCollection, the
 * target. Each method performs the source's assignments in order and is proved to leave
 * the object in the state the matching function of Physics or Drift describes.
 */
module Bodies {
  import opened Numerics
  import opened World
  import opened Neat
  import opened Physics
  import opened Drift

  /** A rocket object: the fields createRockets sets, bound to one genome as its brain. */
  class Rocket {
    var x: real
    var y: real
    var speedX: real
    var speedY: real
    var angle: real
    var fireAngle: real
    const width: real
    const height: real
    var thrusting: bool
    var active: bool
    var lifetime: nat
    var currentFitness: real
    var fitness: real
    var bestDistance: Extended
    var collectionsReached: nat
    const brain: Genome

    /** The rocket's fields as a record. */
    function State(): RocketState
      reads this
    {
      RocketState(x, y, speedX, speedY, angle, fireAngle, width, height, thrusting, active,
                  lifetime, currentFitness, fitness, bestDistance, collectionsReached)
    }

    /** The object literal of createRockets' training branch: at rest at the spawn point, active, unscored. */
    constructor (spawnX: real, spawnY: real, brain: Genome)
      ensures State() == Spawned(spawnX, spawnY) && this.brain == brain
    {
      x, y := spawnX, spawnY;
      speedX, speedY := 0.0, 0.0;
      angle, fireAngle := 0.0, 0.0;
      width, height := ROCKET_WIDTH, ROCKET_HEIGHT;
      fitness, currentFitness := 0.0, 0.0;
      bestDistance := Infinity;
      collectionsReached := 0;
      this.brain := brain;
      thrusting, active := false, true;
      lifetime := 0;
    }

    /** applyNetworkOutputs on this rocket, with the target in state `c`. */
    method ApplyNetworkOutputs(outputs: seq<real>, dt: real, c: CollectionState, m: MathLib)
      modifies this
      ensures State() == Physics.ApplyNetworkOutputs(old(State()), outputs, dt, c, m)
    {
      var inCollectionArea := IsInCollectionArea(State(), c, m);
      ApplyThrust(outputs, dt, m);
      ApplyTurn(Steering(outputs), dt);
      if inCollectionArea {
        var angleCorrection := -angle * UPRIGHT_CORRECTION;
        angle := angle + angleCorrection;
      }
    }

    /** The thrust part of applyNetworkOutputs. */
    method ApplyThrust(outputs: seq<real>, dt: real, m: MathLib)
      modifies this
      ensures State() == Thrust(old(State()), outputs, dt, m)
    {
      thrusting := Fires(outputs, 0);
      if thrusting {
        speedX := speedX + THRUST * m.sin(angle) * dt;
        speedY := speedY - THRUST * m.cos(angle) * dt;
      }
    }

    /** The rotation part of applyNetworkOutputs: rotate-left is tested before rotate-right. */
    method ApplyTurn(turn: Turn, dt: real)
      modifies this
      ensures State() == Turned(old(State()), turn, dt)
    {
      if turn == TurnLeft {
        angle := angle - TARGET_ROTATION_SPEED * dt;
        fireAngle := Min(fireAngle + FIRE_ANGLE_RATE * dt, MAX_FIRE_ANGLE);
      } else if turn == TurnRight {
        angle := angle + TARGET_ROTATION_SPEED * dt;
        fireAngle := Max(fireAngle - FIRE_ANGLE_RATE * dt, -MAX_FIRE_ANGLE);
      } else {
        fireAngle := fireAngle + (0.0 - fireAngle) * FIRE_ANGLE_RATE * dt;
      }
    }

    /** updatePosition on this rocket. */
    method UpdatePosition(dt: real, m: MathLib)
      modifies this
      ensures State() == Physics.UpdatePosition(old(State()), dt, m)
    {
      x := x + speedX * dt;
      y := y + speedY * dt;
      speedX := speedX * m.pow(DRAG, dt);
      speedY := speedY + GRAVITY * dt;
    }

    /** keepRocketInBounds on this rocket, under the global game mode. */
    method KeepInBounds(mode: GameMode)
      modifies this
      ensures State() == KeepRocketInBounds(old(State()), mode)
    {
      if mode == VsAI {
        x := Max(0.0, Min(x, CANVAS_WIDTH - width));
        y := Max(0.0, Min(y, CANVAS_HEIGHT - height));
        if x <= 0.0 || x >= CANVAS_WIDTH - width {
          speedX := 0.0;
        }
        if y <= 0.0 || y >= CANVAS_HEIGHT - height {
          speedY := 0.0;
        }
      } else {
        if x < 0.0 || x > CANVAS_WIDTH - width || y < 0.0 || y > CANVAS_HEIGHT - height {
          active := false;
          x := Max(0.0, Min(x, CANVAS_WIDTH - width));
          y := Max(0.0, Min(y, CANVAS_HEIGHT - height));
          speedX := 0.0;
          speedY := 0.0;
        }
      }
    }

    /**
     * The body of updateRockets' forEach for this rocket: skip it when inactive; otherwise age
     * it, ask its brain for outputs, fly it, update its score and copy the fitness to
     * brain.score. The brain's network is not touched.
     */
    method Update(dt: real, activate: Activation, mode: GameMode, c: CollectionState, m: MathLib)
      modifies this, brain`score
      ensures State() == RocketFrame(old(State()), brain.net, activate, dt, mode, c, m)
      ensures old(active) ==> brain.score == fitness
      ensures !old(active) ==> brain.score == old(brain.score)
    {
      if !active {
        return;
      }
      ghost var s := State();
      lifetime := lifetime + 1;
      assert State() == Aged(s);
      var inputs := NeuralInputs(State(), c, m);
      var outputs := activate(brain.net, inputs);
      ApplyNetworkOutputs(outputs, dt, c, m);
      UpdatePosition(dt, m);
      KeepInBounds(mode);
      assert State() == Fly(Aged(s), outputs, dt, mode, c, m);
      RecordScore(c, m);
    }

    /** The score bookkeeping of updateRockets, after the rocket has moved. */
    method RecordScore(c: CollectionState, m: MathLib)
      modifies this, brain`score
      ensures State() == Score(old(State()), c, m)
      ensures brain.score == fitness
    {
      // The position is not changed here, so the three measurements agree with the source's.
      var placed := State();
      var currentDistance := DistanceToTarget(placed, c, m);
      if bestDistance.Exceeds(currentDistance) {
        bestDistance := Finite(currentDistance);
      }
      currentFitness := CalculateFitness(placed, c, m);
      fitness := Max(fitness, currentFitness);
      brain.score := fitness;
      if IsInCollectionArea(placed, c, m) {
        collectionsReached := collectionsReached + 1;
      }
    }
  }

  /** window.centralCollection: the moving target every rocket steers toward. */
  class Collection {
    var x: real
    var y: real
    const width: real
    const height: real
    var speedX: real
    var speedY: real
    var targetSpeedX: real
    var targetSpeedY: real

    /** The target's fields as a record. */
    function State(): CollectionState
      reads this
    {
      CollectionState(x, y, width, height, speedX, speedY, targetSpeedX, targetSpeedY)
    }

    /** The object literal of initializeGame, with its two Math.random() draws as rx and ry. */
    constructor (rx: real, ry: real)
      ensures State() == InitialCollection(rx, ry)
    {
      x := (CANVAS_WIDTH - 150.0) / 2.0;
      y := (CANVAS_HEIGHT - 150.0) / 2.0;
      width, height := COLLECTION_WIDTH, COLLECTION_HEIGHT;
      speedX := (rx - 0.5) * 2.0;
      speedY := (ry - 0.5) * 2.0;
      targetSpeedX, targetSpeedY := 0.0, 0.0;
    }

    /** updateCollectionPosition, with the frame's Math.random() draws in `d`. */
    method UpdatePosition(dt: real, d: TargetDraw)
      modifies this
      ensures State() == UpdateCollectionPosition(old(State()), d, dt)
    {
      Steer(d);
      Move(dt);
      Confine();
    }

    /** Sudden redraw of the target speed, easing toward it, and the speed clamp. */
    method Steer(d: TargetDraw)
      modifies this
      ensures State() == Steered(old(State()), d)
    {
      if d.roll < SUDDEN_MOVEMENT_CHANCE {
        targetSpeedX := (d.rx - 0.5) * COLLECTION_MAX_SPEED * 2.0;
        targetSpeedY := (d.ry - 0.5) * COLLECTION_MAX_SPEED * 2.0;
      }
      speedX := speedX + (targetSpeedX - speedX) * COLLECTION_ACCELERATION;
      speedY := speedY + (targetSpeedY - speedY) * COLLECTION_ACCELERATION;
      speedX := Max(-COLLECTION_MAX_SPEED, Min(COLLECTION_MAX_SPEED, speedX));
      speedY := Max(-COLLECTION_MAX_SPEED, Min(COLLECTION_MAX_SPEED, speedY));
    }

    /** The position update. */
    method Move(dt: real)
      modifies this
      ensures State() == Moved(old(State()), dt)
    {
      x := x + speedX * dt;
      y := y + speedY * dt;
    }

    /** The bounce off the margin and the final clamp into the box. */
    method Confine()
      modifies this
      ensures State() == Confined(old(State()))
    {
      if x <= CANVAS_WIDTH * COLLECTION_MARGIN || x >= CANVAS_WIDTH * (1.0 - COLLECTION_MARGIN) - width {
        speedX := speedX * -1.0;
        targetSpeedX := targetSpeedX * -1.0;
      }
      if y <= CANVAS_HEIGHT * COLLECTION_MARGIN || y >= CANVAS_HEIGHT * (1.0 - COLLECTION_MARGIN) - height {
        speedY := speedY * -1.0;
        targetSpeedY := targetSpeedY * -1.0;
      }
      x := Max(CANVAS_WIDTH * COLLECTION_MARGIN, Min(x, CANVAS_WIDTH * (1.0 - COLLECTION_MARGIN) - width));
      y := Max(CANVAS_HEIGHT * COLLECTION_MARGIN, Min(y, CANVAS_HEIGHT * (1.0 - COLLECTION_MARGIN) - height));
    }
  }
}
