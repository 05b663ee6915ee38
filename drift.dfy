/**
 * updateCollectionPosition: the collection target drifts toward a randomly redrawn target
 * speed, never faster than COLLECTION_MAX_SPEED, and bounces inside a box that keeps a 20%
 * margin from every canvas edge. The three Math.random() draws of a frame are a parameter.
 */
module Drift {
  import opened Numerics
  import opened World

  /** The values Math.random() returns in one frame: the sudden-movement roll and two speeds. */
  datatype TargetDraw = TargetDraw(roll: real, rx: real, ry: real)

  /** Math.random() returns values in [0, 1). */
  predicate ValidDraw(d: TargetDraw) {
    0.0 <= d.roll < 1.0 && 0.0 <= d.rx < 1.0 && 0.0 <= d.ry < 1.0
  }

  /** (Math.random() - 0.5) * COLLECTION_MAX_SPEED * 2. */
  function DrawnSpeed(r: real): real {
    (r - 0.5) * COLLECTION_MAX_SPEED * 2.0
  }

  /** A fresh random target speed lies in [-5, 5). */
  lemma DrawnSpeedRange(r: real)
    requires 0.0 <= r < 1.0
    ensures -COLLECTION_MAX_SPEED <= DrawnSpeed(r) < COLLECTION_MAX_SPEED
  {
  }

  /** window.centralCollection as initializeGame creates it, from two Math.random() draws. */
  function InitialCollection(rx: real, ry: real): CollectionState {
    CollectionState(
      (CANVAS_WIDTH - 150.0) / 2.0, (CANVAS_HEIGHT - 150.0) / 2.0,
      COLLECTION_WIDTH, COLLECTION_HEIGHT,
      (rx - 0.5) * 2.0, (ry - 0.5) * 2.0,
      0.0, 0.0)
  }

  /** The target starts strictly inside its drift box with speeds in [-1, 1) and no target speed. */
  lemma InitialCollectionInBox(rx: real, ry: real)
    requires 0.0 <= rx < 1.0 && 0.0 <= ry < 1.0
    ensures var c := InitialCollection(rx, ry);
      && LEFT_EDGE < c.x < RightEdge(c) && TOP_EDGE < c.y < BottomEdge(c)
      && -1.0 <= c.speedX < 1.0 && -1.0 <= c.speedY < 1.0
      && c.targetSpeedX == 0.0 && c.targetSpeedY == 0.0
  {
  }

  /** With probability SUDDEN_MOVEMENT_CHANCE both target speeds are redrawn. */
  function Redraw(c: CollectionState, d: TargetDraw): CollectionState {
    if d.roll < SUDDEN_MOVEMENT_CHANCE then
      c.(targetSpeedX := DrawnSpeed(d.rx), targetSpeedY := DrawnSpeed(d.ry))
    else
      c
  }

  /** A tenth of the gap to the target speed, then the clamp to +-COLLECTION_MAX_SPEED. */
  function Eased(speed: real, target: real): real {
    Clamp(-COLLECTION_MAX_SPEED, speed + (target - speed) * COLLECTION_ACCELERATION, COLLECTION_MAX_SPEED)
  }

  /** The left and top edges of the drift box. */
  const LEFT_EDGE: real := CANVAS_WIDTH * COLLECTION_MARGIN
  const TOP_EDGE: real := CANVAS_HEIGHT * COLLECTION_MARGIN

  /** The right and bottom limits of the box for a target of the given size. */
  function RightEdge(c: CollectionState): real {
    CANVAS_WIDTH * (1.0 - COLLECTION_MARGIN) - c.width
  }

  function BottomEdge(c: CollectionState): real {
    CANVAS_HEIGHT * (1.0 - COLLECTION_MARGIN) - c.height
  }

  /** The position reached this frame touches or crosses the margin on that axis. */
  predicate BouncesX(c: CollectionState) {
    c.x <= LEFT_EDGE || c.x >= RightEdge(c)
  }

  predicate BouncesY(c: CollectionState) {
    c.y <= TOP_EDGE || c.y >= BottomEdge(c)
  }

  /** Redraw the target speed if the roll says so, then ease the speed toward it and clamp it. */
  function Steered(c: CollectionState, d: TargetDraw): CollectionState {
    var t := Redraw(c, d);
    t.(speedX := Eased(t.speedX, t.targetSpeedX), speedY := Eased(t.speedY, t.targetSpeedY))
  }

  /** Move by the current speed over dt. */
  function Moved(c: CollectionState, dt: real): CollectionState {
    c.(x := c.x + c.speedX * dt, y := c.y + c.speedY * dt)
  }

  /** The state before the bounce test: steered, then moved. */
  function Advanced(c: CollectionState, d: TargetDraw, dt: real): CollectionState {
    Moved(Steered(c, d), dt)
  }

  /** Flip speed and target speed on each axis that reached the margin, then clamp into the box. */
  function Confined(a: CollectionState): CollectionState {
    var flipX := BouncesX(a);
    var flipY := BouncesY(a);
    a.(speedX := if flipX then -a.speedX else a.speedX,
       targetSpeedX := if flipX then -a.targetSpeedX else a.targetSpeedX,
       speedY := if flipY then -a.speedY else a.speedY,
       targetSpeedY := if flipY then -a.targetSpeedY else a.targetSpeedY,
       x := Clamp(LEFT_EDGE, a.x, RightEdge(a)),
       y := Clamp(TOP_EDGE, a.y, BottomEdge(a)))
  }

  /** One frame of updateCollectionPosition. The target's size never changes. */
  function UpdateCollectionPosition(c: CollectionState, d: TargetDraw, dt: real): (r: CollectionState)
    ensures r.width == c.width && r.height == c.height
  {
    Confined(Advanced(c, d, dt))
  }

  /**
   * After a frame both speeds lie in [-5, 5], whatever the state before: the clamp bounds
   * them and the bounce only changes their sign.
   */
  lemma SpeedBounded(c: CollectionState, d: TargetDraw, dt: real)
    ensures var r := UpdateCollectionPosition(c, d, dt);
      && -COLLECTION_MAX_SPEED <= r.speedX <= COLLECTION_MAX_SPEED
      && -COLLECTION_MAX_SPEED <= r.speedY <= COLLECTION_MAX_SPEED
  {
  }

  /**
   * After a frame the target lies in [0.2 W, 0.8 W - width] x [0.2 H, 0.8 H - height],
   * provided it is small enough for that box to be non-empty.
   */
  lemma PositionInBox(c: CollectionState, d: TargetDraw, dt: real)
    ensures var r := UpdateCollectionPosition(c, d, dt);
      && (c.width <= CANVAS_WIDTH * (1.0 - 2.0 * COLLECTION_MARGIN) ==> LEFT_EDGE <= r.x <= RightEdge(r))
      && (c.height <= CANVAS_HEIGHT * (1.0 - 2.0 * COLLECTION_MARGIN) ==> TOP_EDGE <= r.y <= BottomEdge(r))
  {
  }

  /**
   * On an axis where the moved position touched or crossed the margin, both the speed and the
   * target speed flip sign; on an axis where it did not, they are kept and the position is the
   * moved one (the final clamp does nothing). Either way the position is the moved one clamped
   * into the margin box.
   */
  lemma BounceFlips(c: CollectionState, d: TargetDraw, dt: real)
    ensures var a := Advanced(c, d, dt);
      var r := UpdateCollectionPosition(c, d, dt);
      && r.x == Clamp(LEFT_EDGE, a.x, RightEdge(a))
      && r.y == Clamp(TOP_EDGE, a.y, BottomEdge(a))
      && (BouncesX(a) ==> r.speedX == -a.speedX && r.targetSpeedX == -a.targetSpeedX)
      && (!BouncesX(a) ==> r.speedX == a.speedX && r.targetSpeedX == a.targetSpeedX && r.x == a.x)
      && (BouncesY(a) ==> r.speedY == -a.speedY && r.targetSpeedY == -a.targetSpeedY)
      && (!BouncesY(a) ==> r.speedY == a.speedY && r.targetSpeedY == a.targetSpeedY && r.y == a.y)
  {
  }

  /**
   * A target that starts strictly inside the box and crosses the left or right margin comes
   * out of the frame heading back inward.
   */
  lemma {:induction false} BounceTurnsInwardX(c: CollectionState, d: TargetDraw, dt: real)
    requires dt > 0.0
    requires LEFT_EDGE < c.x < RightEdge(c)
    ensures var a := Advanced(c, d, dt);
      var r := UpdateCollectionPosition(c, d, dt);
      && (a.x <= LEFT_EDGE ==> r.speedX > 0.0)
      && (a.x >= RightEdge(a) ==> r.speedX < 0.0)
  {
    var a := Advanced(c, d, dt);
    var step := a.x - c.x;
    assert step == a.speedX * dt;
    if a.x <= LEFT_EDGE {
      SignOfStep(a.speedX, dt);
    }
    if a.x >= RightEdge(a) {
      SignOfStep(a.speedX, dt);
    }
  }

  /** The same on the vertical axis. */
  lemma {:induction false} BounceTurnsInwardY(c: CollectionState, d: TargetDraw, dt: real)
    requires dt > 0.0
    requires TOP_EDGE < c.y < BottomEdge(c)
    ensures var a := Advanced(c, d, dt);
      var r := UpdateCollectionPosition(c, d, dt);
      && (a.y <= TOP_EDGE ==> r.speedY > 0.0)
      && (a.y >= BottomEdge(a) ==> r.speedY < 0.0)
  {
    var a := Advanced(c, d, dt);
    var step := a.y - c.y;
    assert step == a.speedY * dt;
    if a.y <= TOP_EDGE {
      SignOfStep(a.speedY, dt);
    }
    if a.y >= BottomEdge(a) {
      SignOfStep(a.speedY, dt);
    }
  }

  /** Over a positive time step, the distance moved has the sign of the speed. */
  lemma SignOfStep(speed: real, dt: real)
    requires dt > 0.0
    ensures speed * dt < 0.0 ==> speed < 0.0
    ensures speed * dt > 0.0 ==> speed > 0.0
  {
    if speed > 0.0 {
      ScaleMonotone(dt, 0.0, speed);
      assert dt * speed == speed * dt;
    } else if speed < 0.0 {
      ScaleMonotone(dt, speed, 0.0);
      assert dt * speed == speed * dt;
    } else {
      assert speed * dt == 0.0 * dt;
    }
  }
}
