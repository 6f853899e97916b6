/**
 * The game's entities (entities.py) and the configuration constants they are
 * built from (settings.py). The paddle (`Ship`) and the `Ball` are objects
 * whose fields are updated in place; bricks and bullets are values.
 */
module Entities {
  import opened Geometry

  // Configuration (settings.py).
  const BallSize := Size(32, 32)
  const ShipSize := Size(190, 30)
  const BonusSize := Size(25, 25)
  const BrickSize := Size(90, 20)
  const BulletSize := Size(10, 18)

  const BallVelocity: real := 15.0
  const ShipVelocity: real := 30.0
  const BonusVelocity: real := 15.0
  const BulletVelocity: real := 20.0

  /** The names settings.py defines or imports; any other attribute of it is missing. */
  const SettingNames: set<string> := {
    "math", "Size",
    "ball_size", "ship_size", "bonus_size", "brick_size", "bullet_size",
    "ball_velocity", "ship_velocity", "bonus_velocity", "bullet_velocity",
    "ball_direction", "ship_direction", "bonus_direction", "bullet_direction" }

  /**
   * The axis-aligned movement directions the entities use: angle 0 (the
   * paddle), -pi/2 (bullets, towards the top of the screen) and pi/2
   * (bonuses, towards the bottom). The ball's own direction is an arbitrary
   * angle and is not part of this model.
   */
  datatype Direction = Rightward | Upward | Downward

  /** Python's `int(r)` on a float: truncation toward zero. */
  function Trunc(r: real): (n: int)
    ensures r >= 0.0 ==> n as real <= r < n as real + 1.0
    ensures r <= 0.0 ==> n as real - 1.0 < r <= n as real
  {
    if r >= 0.0 then r.Floor else -((-r).Floor)
  }

  /**
   * `MovingEntity.move(turn_rate)`: the displacement
   * (int(cos d * v * t), int(sin d * v * t)) for the three axis-aligned
   * directions, where cos and sin are 0 or +-1 (the float cosine of +-pi/2 is
   * far below 1 and truncates to 0).
   */
  function Step(d: Direction, velocity: real, turnRate: int): Offset
  {
    var distance := Trunc(velocity * turnRate as real);
    match d
    case Rightward => Offset(distance, 0)
    case Upward => Offset(0, -distance)
    case Downward => Offset(0, distance)
  }

  /**
   * With an integral velocity a step is exact: `velocity * turnRate` along
   * the direction's axis, nothing along the other.
   */
  lemma StepIsExact(d: Direction, velocity: int, turnRate: int)
    ensures Step(d, velocity as real, turnRate) ==
      match d
      case Rightward => Offset(velocity * turnRate, 0)
      case Upward => Offset(0, -(velocity * turnRate))
      case Downward => Offset(0, velocity * turnRate)
  {
    assert velocity as real * turnRate as real == (velocity * turnRate) as real;
  }

  /**
   * The frame `expand` produces: half the width (truncated) is added on the
   * left, so the right edge, the top and the height are kept, and an even
   * width becomes three halves of itself.
   */
  function Widened(f: Frame): (g: Frame)
    ensures g.Right() == f.Right() && g.y == f.y && g.height == f.height
    ensures g.width == f.width + TruncHalf(f.width)
    ensures f.width % 2 == 0 ==> 2 * g.width == 3 * f.width
  {
    f.Transform(-TruncHalf(f.width), 0, TruncHalf(f.width), 0)
  }

  /**
   * The frame `narrow` produces: half the width (truncated) is removed from
   * the left, so the right edge, the top and the height are kept, and an
   * even width is halved.
   */
  function Narrowed(f: Frame): (g: Frame)
    ensures g.Right() == f.Right() && g.y == f.y && g.height == f.height
    ensures g.width == f.width - TruncHalf(f.width)
    ensures f.width % 2 == 0 ==> 2 * g.width == f.width
  {
    f.Transform(TruncHalf(f.width), 0, -TruncHalf(f.width), 0)
  }

  /** The paddle. */
  class Ship {
    var frame: Frame
    var velocity: real
    var bullets: int

    constructor (x: int, y: int)
      ensures frame == Frame(x, y, ShipSize.width, ShipSize.height)
      ensures velocity == ShipVelocity && bullets == 0
    {
      frame := Frame(x, y, ShipSize.width, ShipSize.height);
      velocity := ShipVelocity;
      bullets := 0;
    }

    /** Puts this paddle back in the state the constructor gives a new one at (x, y). */
    method Restart(x: int, y: int)
      modifies this
      ensures frame == Frame(x, y, ShipSize.width, ShipSize.height)
      ensures velocity == ShipVelocity && bullets == 0
    {
      frame := Frame(x, y, ShipSize.width, ShipSize.height);
      velocity := ShipVelocity;
      bullets := 0;
    }

    /** Horizontal movement by `velocity * turnRate`; the size and `y` stay. */
    method Move(turnRate: int)
      modifies this`frame
      ensures frame.x == old(frame.x) + Step(Rightward, velocity, turnRate).dx
      ensures frame.y == old(frame.y)
      ensures frame.width == old(frame.width) && frame.height == old(frame.height)
    {
      var delta := Step(Rightward, velocity, turnRate);
      frame := frame.Relocate(delta.dx, delta.dy);
    }

    /** `expand`: the paddle grows by half its width, its right edge staying put. */
    method Expand()
      modifies this`frame
      ensures frame == Widened(old(frame))
    {
      frame := Widened(frame);
    }

    /** `narrow`: the paddle shrinks by half its width, its right edge staying put. */
    method Narrow()
      modifies this`frame
      ensures frame == Narrowed(old(frame))
    {
      frame := Narrowed(frame);
    }

    /** A new paddle has no ammunition; `get_ammo` adds exactly `count`. */
    method GetAmmo(count: int)
      modifies this`bullets
      ensures bullets == old(bullets) + count
    {
      bullets := bullets + count;
    }
  }

  /** The ball. Its direction of flight is not modelled (see `Move`). */
  class Ball {
    var frame: Frame
    var velocity: real
    var state: BallState

    /** A new ball is Free. */
    constructor (x: int, y: int)
      ensures frame == Frame(x, y, BallSize.width, BallSize.height)
      ensures velocity == BallVelocity && state == Free
    {
      frame := Frame(x, y, BallSize.width, BallSize.height);
      velocity := BallVelocity;
      state := Free;
    }

    /** Puts this ball back in the state the constructor gives a new one at (x, y). */
    method Restart(x: int, y: int)
      modifies this
      ensures frame == Frame(x, y, BallSize.width, BallSize.height)
      ensures velocity == BallVelocity && state == Free
    {
      frame := Frame(x, y, BallSize.width, BallSize.height);
      velocity := BallVelocity;
      state := Free;
    }

    method StickToShip()
      modifies this`state
      ensures state == Caught
    {
      ChangeState(Caught);
    }

    method ChangeState(newState: BallState)
      modifies this`state
      ensures state == newState
    {
      state := newState;
    }

    /**
     * A Caught ball shifts horizontally by exactly `deltaX`, the paddle's
     * displacement. Any other ball flies by `flight`, the displacement the
     * source derives from the ball's angle and velocity with float
     * trigonometry; `deltaX` is then ignored.
     */
    method Move(deltaX: int, flight: Offset)
      modifies this`frame
      ensures state == Caught ==> frame == old(frame).Relocate(deltaX, 0)
      ensures state != Caught ==> frame == old(frame).Relocate(flight.dx, flight.dy)
    {
      if state != Caught {
        frame := frame.Relocate(flight.dx, flight.dy);
      } else {
        frame := frame.Relocate(deltaX, 0);
      }
    }

    /** Sets the speed to 1.5 times the configured one, whatever it was. */
    method Accelerate()
      modifies this`velocity
      ensures velocity == 1.5 * BallVelocity
    {
      velocity := 1.5 * BallVelocity;
    }
  }

  /** A bullet flies upwards at a constant speed. */
  datatype Bullet = Bullet(frame: Frame)
  {
    /** One tick of flight: `bullet_velocity` towards the top, size kept. */
    function Moved(): (b: Bullet)
      ensures b.frame.x == frame.x && b.frame.y == frame.y - 20
      ensures b.frame.width == frame.width && b.frame.height == frame.height
    {
      var delta := Step(Upward, BulletVelocity, 1);
      StepIsExact(Upward, 20, 1);
      Bullet(frame.Relocate(delta.dx, delta.dy))
    }
  }

  function NewBullet(x: int, y: int): Bullet
  {
    Bullet(Frame(x, y, BulletSize.width, BulletSize.height))
  }

  /** A brick; its colour is always None and is not modelled. */
  datatype Brick = Brick(frame: Frame)

  function NewBrick(x: int, y: int): Brick
  {
    Brick(Frame(x, y, BrickSize.width, BrickSize.height))
  }

  /** test_ship_movement: moving right, standing still, moving back left. */
  method ShipMovementExample() returns (locations: seq<(int, int)>)
    ensures locations == [(20, 500), (20, 500), (0, 500)]
  {
    var ship := new Ship(10, 500);
    ship.velocity := 10.0;
    StepIsExact(Rightward, 10, 1);
    ship.Move(1);
    locations := [ship.frame.Location()];
    StepIsExact(Rightward, 10, 0);
    ship.Move(0);
    locations := locations + [ship.frame.Location()];
    ship.velocity := 20.0;
    StepIsExact(Rightward, 20, -1);
    ship.Move(-1);
    locations := locations + [ship.frame.Location()];
  }

  /** test_ball_movement: a Free ball heading straight up by its velocity. */
  method BallMovementExample() returns (location: (int, int))
    ensures location == (350, 950)
  {
    var ball := new Ball(350, 970);
    ball.ChangeState(Free);
    ball.velocity := 20.0;
    StepIsExact(Upward, 20, 1);
    ball.Move(0, Step(Upward, ball.velocity, 1));
    location := ball.frame.Location();
  }
}
