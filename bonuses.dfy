/**
 * The bonus table (bonuses.py): the seven kinds of falling pickup, the
 * `BONUSES` list the random pick indexes into, and the falling `Bonus`
 * entity itself. What each kind does to a game when the paddle catches it
 * is modelled beside the game state, in the `Game` module.
 */
module Bonuses {
  import opened Geometry
  import opened Entities

  /**
   * The bonus classes: the base `Bonus`, whose activation does nothing, and
   * its seven subclasses.
   */
  datatype BonusKind =
    | PlainBonus
    | DecreaseBonus
    | ExpandBonus
    | BulletBonus
    | FireBallBonus
    | FastBallBonus
    | LifeBonus
    | DeathBonus

  /** The `BONUSES` list, in its source order. */
  const Table: seq<BonusKind> :=
    [DecreaseBonus, ExpandBonus, BulletBonus, FireBallBonus, FastBallBonus, LifeBonus, DeathBonus]

  /** Position of a subclass in `Table`; the base class has none. */
  function IndexOf(kind: BonusKind): (k: int)
    ensures kind == PlainBonus <==> k == -1
  {
    match kind
    case PlainBonus => -1
    case DecreaseBonus => 0
    case ExpandBonus => 1
    case BulletBonus => 2
    case FireBallBonus => 3
    case FastBallBonus => 4
    case LifeBonus => 5
    case DeathBonus => 6
  }

  /**
   * `get_random_bonus` with the random draw `roll` of `randint(0, 6)` as an
   * input: always one of the seven subclasses, never the base class.
   */
  function GetRandomBonus(roll: int): (kind: BonusKind)
    requires 0 <= roll < |Table|
    ensures kind != PlainBonus && kind in Table
  {
    Table[roll]
  }

  /** The table lists the seven subclasses, each exactly once, at its index. */
  lemma TableShape()
    ensures |Table| == 7
    ensures forall k :: 0 <= k < |Table| ==> IndexOf(Table[k]) == k
    ensures forall kind :: kind != PlainBonus ==> kind in Table
  {
    forall kind | kind != PlainBonus
      ensures kind in Table
    {
      assert Table[IndexOf(kind)] == kind;
    }
  }

  /** Drawing index `k` and asking for the kind's index gives `k` back, and conversely. */
  lemma RandomBonusRoundTrip(roll: int, kind: BonusKind)
    ensures 0 <= roll < |Table| ==> IndexOf(GetRandomBonus(roll)) == roll
    ensures kind != PlainBonus ==> 0 <= IndexOf(kind) < |Table| && GetRandomBonus(IndexOf(kind)) == kind
  {
    TableShape();
    if kind != PlainBonus {
      assert Table[IndexOf(kind)] == kind;
    }
  }

  /** A falling bonus: its kind and its rectangle. */
  datatype Bonus = Bonus(kind: BonusKind, frame: Frame)
  {
    /** `move()`: one tick of falling, `bonus_velocity` towards the bottom. */
    function Moved(): (b: Bonus)
      ensures b.kind == kind
      ensures b.frame == frame.Relocate(Step(Downward, BonusVelocity, 1).dx, Step(Downward, BonusVelocity, 1).dy)
    {
      Bonus(kind, frame.Relocate(0, 15))
    }
  }

  /**
   * A bonus created at (x, y), with the size, speed and direction of the
   * configuration's `bonus_size`, `bonus_velocity` and `bonus_direction`.
   */
  function NewBonus(kind: BonusKind, x: int, y: int): Bonus
  {
    Bonus(kind, Frame(x, y, BonusSize.width, BonusSize.height))
  }

  /** A new bonus is a 25x25 square at (x, y) that falls 15 units per tick. */
  lemma NewBonusFalls(kind: BonusKind, x: int, y: int)
    ensures NewBonus(kind, x, y).frame == Frame(x, y, 25, 25)
    ensures NewBonus(kind, x, y).Moved() == Bonus(kind, Frame(x, y + 15, 25, 25))
    ensures NewBonus(kind, x, y).Moved().frame.Bottom() == y + 40
  {
  }

  /** The outcome of a Python attribute lookup: a value, or an `AttributeError`. */
  datatype Outcome<T> = Ok(value: T) | AttributeError(name: string)

  /** Looks `name` up in the configuration module. */
  function Setting(name: string): Outcome<string>
  {
    if name in SettingNames then Ok(name) else AttributeError(name)
  }

  /**
   * `Bonus.__init__` as written: it reads `BONUS_SIZE`, `BONUS_VELOCITY` and
   * `BONUS_DIRECTION` from the configuration before building the entity.
   */
  function NewBonusAsWritten(kind: BonusKind, x: int, y: int): Outcome<Bonus>
  {
    match Setting("BONUS_SIZE")
    case AttributeError(name) => AttributeError(name)
    case Ok(_) =>
      match Setting("BONUS_VELOCITY")
      case AttributeError(name) => AttributeError(name)
      case Ok(_) =>
        match Setting("BONUS_DIRECTION")
        case AttributeError(name) => AttributeError(name)
        case Ok(_) => Ok(NewBonus(kind, x, y))
  }

  /**
   * The configuration only defines the lower-case names, so creating any
   * bonus, of any kind and anywhere, fails on the first lookup.
   */
  lemma NewBonusAsWrittenFails(kind: BonusKind, x: int, y: int)
    ensures NewBonusAsWritten(kind, x, y) == AttributeError("BONUS_SIZE")
    ensures Setting("bonus_size").Ok? && Setting("bonus_velocity").Ok? && Setting("bonus_direction").Ok?
  {
    assert "BONUS_SIZE" !in SettingNames by {
      assert "BONUS_SIZE"[0] == 'B';
    }
  }
}
