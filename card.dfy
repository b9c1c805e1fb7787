/**
 * The moving answer card of src/entities/Card.ts. Its value, correctness
 * flag, velocity and box size are fixed at construction; only the position
 * changes. Positions are in pixels, velocities in pixels per second and
 * frame deltas in milliseconds.
 */
module Cards {

  /** Cards further than this beyond an edge of the world are culled. */
  const CullMargin: real := 100.0

  /** isOutOfBounds at a position: more than the margin past some edge. */
  predicate OutOfBoundsAt(x: real, y: real, worldWidth: real, worldHeight: real) {
    x < -CullMargin || x > worldWidth + CullMargin || y < -CullMargin || y > worldHeight + CullMargin
  }

  /** A position is kept exactly when it lies in the world grown by the margin on every side. */
  lemma InBoundsRegion(x: real, y: real, worldWidth: real, worldHeight: real)
    ensures !OutOfBoundsAt(x, y, worldWidth, worldHeight)
        <==> -CullMargin <= x <= worldWidth + CullMargin && -CullMargin <= y <= worldHeight + CullMargin
  {
  }

  /**
   * The box a pointer must hit: width x height centred on the position,
   * edges included (Phaser's Rectangle.contains is not part of this model).
   */
  predicate BoxContains(cx: real, cy: real, width: real, height: real, px: real, py: real) {
    cx - width / 2.0 <= px <= cx + width / 2.0 && cy - height / 2.0 <= py <= cy + height / 2.0
  }

  /** The centre of a box of positive size is inside it, and so are its corners. */
  lemma BoxContainsCentreAndCorners(cx: real, cy: real, width: real, height: real)
    requires width > 0.0 && height > 0.0
    ensures BoxContains(cx, cy, width, height, cx, cy)
    ensures BoxContains(cx, cy, width, height, cx - width / 2.0, cy + height / 2.0)
    ensures !BoxContains(cx, cy, width, height, cx + width, cy)
  {
  }

  /** The displacement after delta milliseconds at a velocity in pixels per second. */
  function Displacement(velocity: real, delta: real): real {
    velocity * (delta / 1000.0)
  }

  /** Moving for no time does not move; moving for d1 then d2 is moving for d1 + d2. */
  lemma DisplacementAdds(velocity: real, d1: real, d2: real)
    ensures Displacement(velocity, 0.0) == 0.0
    ensures Displacement(velocity, d1) + Displacement(velocity, d2) == Displacement(velocity, d1 + d2)
  {
  }

  class Card {
    var x: real
    var y: real
    const value: int
    const isCorrectAnswer: bool
    const velocityX: real
    const velocityY: real
    /** CARD_CONFIG.CARD_WIDTH and CARD_CONFIG.CARD_HEIGHT, the interactive size. */
    const width: real
    const height: real

    constructor (x: real, y: real, value: int, isCorrect: bool, velocityX: real, velocityY: real,
                 width: real, height: real)
      ensures this.x == x && this.y == y
      ensures this.value == value && this.isCorrectAnswer == isCorrect
      ensures this.velocityX == velocityX && this.velocityY == velocityY
      ensures this.width == width && this.height == height
    {
      this.x, this.y := x, y;
      this.value := value;
      this.isCorrectAnswer := isCorrect;
      this.velocityX, this.velocityY := velocityX, velocityY;
      this.width, this.height := width, height;
    }

    /** updateMovement: delta is in milliseconds and the velocity in pixels per second. */
    method UpdateMovement(delta: real)
      modifies this`x, this`y
      ensures x == old(x) + Displacement(velocityX, delta)
      ensures y == old(y) + Displacement(velocityY, delta)
    {
      var deltaSeconds := delta / 1000.0;
      x := x + velocityX * deltaSeconds;
      y := y + velocityY * deltaSeconds;
    }

    predicate IsOutOfBounds(worldWidth: real, worldHeight: real)
      reads this
    {
      OutOfBoundsAt(x, y, worldWidth, worldHeight)
    }

    function GetValue(): int {
      value
    }

    predicate IsCorrect() {
      isCorrectAnswer
    }

    /** The pointer (px, py) lies in the card's box. */
    predicate Contains(px: real, py: real)
      reads this
    {
      BoxContains(x, y, width, height, px, py)
    }
  }
}
