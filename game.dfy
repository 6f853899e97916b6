/**
 * The game session (game.py): one paddle, one ball, the active level's
 * bricks, the live bullets and bonuses, and the score, lives and level
 * counters, advanced one `tick` at a time. The ball's flight displacement,
 * the random spawn decision and the random bonus index are inputs of the
 * tick.
 */
module Game {
  import opened Geometry
  import opened Entities
  import opened Levels
  import opened Bonuses

  /** `min(max(low, x), high)`: within [low, high] whenever that range is non-empty. */
  function Clamp(x: int, low: int, high: int): (r: int)
    ensures low <= high ==> low <= r <= high
    ensures low <= x <= high ==> r == x
    ensures x < low && low <= high ==> r == low
    ensures high < x && low <= high ==> r == high
  {
    Min(Max(low, x), high)
  }

  /** Where `reset` puts the paddle: centred horizontally, resting on the bottom. */
  function StartShipFrame(size: Size): Frame
  {
    Frame(TruncHalf(size.width - ShipSize.width), size.height - ShipSize.height,
          ShipSize.width, ShipSize.height)
  }

  /** Where `reset` puts the ball: centred on the paddle, resting on its top. */
  function StartBallFrame(size: Size): Frame
  {
    var ship := StartShipFrame(size);
    Frame(ship.x + TruncHalf(ship.width - BallSize.width), ship.Top() - BallSize.height,
          BallSize.width, BallSize.height)
  }

  /** The height below which a ball's middle counts as dropped: the paddle's middle. */
  function DeadlyHeight(size: Size): int
  {
    StartShipFrame(size).Bottom() - ShipSize.height / 2
  }

  /**
   * The start of a round: the ball sits on the paddle's top edge, centred on
   * it (79 units in), its middle above the deadly height, and both lie within
   * a field at least as wide as the paddle.
   */
  lemma StartPlacement(size: Size)
    ensures StartBallFrame(size).Bottom() == StartShipFrame(size).Top()
    ensures 2 * StartBallFrame(size).x + BallSize.width == 2 * StartShipFrame(size).x + ShipSize.width
    ensures StartBallFrame(size).x == StartShipFrame(size).x + 79
    ensures DeadlyHeight(size) == size.height - 15
    ensures StartBallFrame(size).Middle() < DeadlyHeight(size)
    ensures StartShipFrame(size).Bottom() == size.height
    ensures size.width >= ShipSize.width ==>
              0 <= StartShipFrame(size).Left() && StartShipFrame(size).Right() <= size.width &&
              StartShipFrame(size).Left() <= StartBallFrame(size).Left() &&
              StartBallFrame(size).Right() <= StartShipFrame(size).Right()
  {
  }

  /**
   * The part of a session a bonus can affect: the paddle's frame, speed and
   * ammunition, the ball's frame, speed and state, and the lives.
   */
  datatype Session = Session(shipFrame: Frame, shipVelocity: real, ammo: int,
                             ballFrame: Frame, ballVelocity: real, ballState: BallState,
                             lives: int)

  /** The session right after `reset`, with `lives` lives. */
  function ResetSession(size: Size, lives: int): Session
  {
    Session(StartShipFrame(size), ShipVelocity, 0, StartBallFrame(size), BallVelocity, Caught, lives)
  }

  /**
   * What activating a bonus of kind `kind` does: the base class nothing,
   * Decrease narrows and Expand widens the paddle, Bullet grants 12 rounds,
   * FireBall makes the ball Fiery, FastBall speeds it up, Life adds a life,
   * and Death takes one and resets the round.
   */
  function Effect(kind: BonusKind, s: Session, size: Size): Session
  {
    match kind
    case PlainBonus => s
    case DecreaseBonus => s.(shipFrame := Narrowed(s.shipFrame))
    case ExpandBonus => s.(shipFrame := Widened(s.shipFrame))
    case BulletBonus => s.(ammo := s.ammo + 12)
    case FireBallBonus => s.(ballState := Fiery)
    case FastBallBonus => s.(ballVelocity := 1.5 * BallVelocity)
    case LifeBonus => s.(lives := s.lives + 1)
    case DeathBonus => ResetSession(size, s.lives - 1)
  }

  /** The base class's activation changes nothing. */
  lemma PlainBonusDoesNothing(s: Session, size: Size)
    ensures Effect(PlainBonus, s, size) == s
  {
  }

  /** Each effect on the paddle or the ball changes its one attribute and nothing else. */
  lemma EffectsAreLocal(s: Session, size: Size)
    ensures Effect(DecreaseBonus, s, size) == s.(shipFrame := Narrowed(s.shipFrame))
    ensures Effect(ExpandBonus, s, size) == s.(shipFrame := Widened(s.shipFrame))
    ensures Effect(BulletBonus, s, size).ammo == s.ammo + 12
    ensures Effect(BulletBonus, s, size).(ammo := s.ammo) == s
    ensures Effect(FireBallBonus, s, size).ballState == Fiery
    ensures Effect(FireBallBonus, s, size).(ballState := s.ballState) == s
    ensures Effect(FastBallBonus, s, size).(ballVelocity := s.ballVelocity) == s
  {
  }

  /** Catching a second FastBall bonus has no further effect. */
  lemma FastBallIdempotent(s: Session, size: Size)
    ensures Effect(FastBallBonus, Effect(FastBallBonus, s, size), size) == Effect(FastBallBonus, s, size)
    ensures Effect(FastBallBonus, s, size).ballVelocity == 22.5
  {
  }

  /**
   * Life adds exactly one life and Death takes exactly one and restarts the
   * round; no other kind changes the lives.
   */
  lemma LivesEffects(kind: BonusKind, s: Session, size: Size)
    ensures kind == LifeBonus ==> Effect(kind, s, size) == s.(lives := s.lives + 1)
    ensures kind == DeathBonus ==> Effect(kind, s, size) == ResetSession(size, s.lives - 1)
    ensures kind != LifeBonus && kind != DeathBonus ==> Effect(kind, s, size).lives == s.lives
  {
  }

  /** Every effect keeps the ammunition a non-negative even number. */
  lemma EffectKeepsAmmoEven(kind: BonusKind, s: Session, size: Size)
    requires s.ammo >= 0 && s.ammo % 2 == 0
    ensures Effect(kind, s, size).ammo >= 0 && Effect(kind, s, size).ammo % 2 == 0
  {
  }

  /** The attributes and methods a `GameModel` has. */
  const GameModelAttributes: set<string> := {
    "size", "frame", "gameover", "lives", "current_level", "scores", "ship", "ball",
    "deadly_height", "levels", "level", "bonuses", "bullets", "get_entities",
    "release_ball", "shooting", "tick", "try_get_next_level", "reset",
    "normalize_ship_location", "try_reflect_ball" }

  /** Looks `name` up on a game. */
  function GameAttribute(name: string): Outcome<string>
  {
    if name in GameModelAttributes then Ok(name) else AttributeError(name)
  }

  /**
   * The activations as written: LifeBonus reaches for `game.player` and
   * DeathBonus for `game.kill_player`; the others use `game.ship` or
   * `game.ball`, and the base class uses nothing.
   */
  function ActivationAsWritten(kind: BonusKind): Outcome<string>
  {
    match kind
    case PlainBonus => Ok("")
    case DecreaseBonus => GameAttribute("ship")
    case ExpandBonus => GameAttribute("ship")
    case BulletBonus => GameAttribute("ship")
    case FireBallBonus => GameAttribute("ball")
    case FastBallBonus => GameAttribute("ball")
    case LifeBonus => GameAttribute("player")
    case DeathBonus => GameAttribute("kill_player")
  }

  /** As written, activating exactly the Life and Death bonuses fails. */
  lemma ActivationAsWrittenFails(kind: BonusKind)
    ensures ActivationAsWritten(kind).AttributeError? <==> kind == LifeBonus || kind == DeathBonus
    ensures ActivationAsWritten(LifeBonus) == AttributeError("player")
    ensures ActivationAsWritten(DeathBonus) == AttributeError("kill_player")
  {
    assert "player" !in GameModelAttributes by {
      assert "player"[..2] == "pl";
    }
    assert "kill_player" !in GameModelAttributes by {
      assert "kill_player"[0] == 'k';
    }
  }

  /** What one pass over the live bonuses produces. */
  datatype BonusPassResult = BonusPassResult(session: Session, kept: seq<Bonus>, reset: bool)

  /**
   * One iteration of the bonus loop: the bonus falls one step; if it then
   * touches the paddle (as the paddle is at that moment) it is activated and
   * dropped; if it did not overlap `field` before falling it is dropped;
   * otherwise it stays, fallen. `reset` records whether a Death bonus fired.
   */
  function BonusStep(size: Size, field: Frame, prev: BonusPassResult, b: Bonus): BonusPassResult
  {
    var moved := b.Moved();
    if moved.frame.IntersectsWith(prev.session.shipFrame) then
      BonusPassResult(Effect(b.kind, prev.session, size), prev.kept, prev.reset || b.kind == DeathBonus)
    else if b.frame.IntersectsWith(field) then
      prev.(kept := prev.kept + [moved])
    else prev
  }

  /** The bonus loop over `pending`, in order, starting from session `s`. */
  function BonusPass(size: Size, field: Frame, s: Session, pending: seq<Bonus>): BonusPassResult
  {
    if |pending| == 0 then BonusPassResult(s, [], false)
    else BonusStep(size, field, BonusPass(size, field, s, pending[..|pending| - 1]), pending[|pending| - 1])
  }

  /** The pass over the first i + 1 bonuses is one step after the pass over the first i. */
  lemma BonusPassUnfold(size: Size, field: Frame, s: Session, pending: seq<Bonus>, i: int)
    requires 0 <= i < |pending|
    ensures BonusPass(size, field, s, pending[..i + 1])
         == BonusStep(size, field, BonusPass(size, field, s, pending[..i]), pending[i])
  {
    assert pending[..i + 1][..i] == pending[..i];
  }

  /**
   * Every bonus that stays is a fallen copy of a pending bonus that overlapped
   * the field and, fallen, did not touch the paddle as it was at that step;
   * at most all of them stay.
   */
  lemma {:induction false} BonusPassKept(size: Size, field: Frame, s: Session, pending: seq<Bonus>)
    ensures |BonusPass(size, field, s, pending).kept| <= |pending|
    ensures forall x :: x in BonusPass(size, field, s, pending).kept ==>
              exists k :: 0 <= k < |pending| && KeptAt(size, field, s, pending, k) && x == pending[k].Moved()
  {
    if |pending| > 0 {
      var init := pending[..|pending| - 1];
      BonusPassKept(size, field, s, init);
      forall x | x in BonusPass(size, field, s, pending).kept
        ensures exists k :: 0 <= k < |pending| && KeptAt(size, field, s, pending, k) && x == pending[k].Moved()
      {
        if x in BonusPass(size, field, s, init).kept {
          var k :| 0 <= k < |init| && KeptAt(size, field, s, init, k) && x == init[k].Moved();
          assert pending[k] == init[k] && pending[..k] == init[..k];
          assert KeptAt(size, field, s, pending, k);
        } else {
          assert pending[..|pending| - 1] == init;
          assert KeptAt(size, field, s, pending, |pending| - 1);
        }
      }
    }
  }

  /**
   * The k-th pending bonus stays through its step: it overlapped the field
   * and, fallen, does not touch the paddle as the bonuses before it left it.
   */
  predicate KeptAt(size: Size, field: Frame, s: Session, pending: seq<Bonus>, k: int)
    requires 0 <= k < |pending|
  {
    pending[k].frame.IntersectsWith(field) &&
    !pending[k].Moved().frame.IntersectsWith(BonusPass(size, field, s, pending[..k]).session.shipFrame)
  }

  /** A bonus kind whose activation leaves the paddle where it is: not Decrease, Expand or Death. */
  predicate KeepsPaddle(kind: BonusKind)
  {
    kind != DecreaseBonus && kind != ExpandBonus && kind != DeathBonus
  }

  /** The bonuses one step of the pass keeps. */
  lemma BonusStepKept(size: Size, field: Frame, prev: BonusPassResult, b: Bonus)
    ensures BonusStep(size, field, prev, b).kept ==
              if b.Moved().frame.IntersectsWith(prev.session.shipFrame) || !b.frame.IntersectsWith(field)
              then prev.kept else prev.kept + [b.Moved()]
  {
  }

  /** A pass whose bonuses all leave the paddle alone keeps the paddle and does not reset. */
  lemma {:induction false} BonusPassKeepsPaddle(size: Size, field: Frame, s: Session, pending: seq<Bonus>)
    requires forall k :: 0 <= k < |pending| ==> KeepsPaddle(pending[k].kind)
    ensures BonusPass(size, field, s, pending).session.shipFrame == s.shipFrame
    ensures !BonusPass(size, field, s, pending).reset
  {
    if |pending| > 0 {
      var init := pending[..|pending| - 1];
      var b := pending[|pending| - 1];
      BonusPassKeepsPaddle(size, field, s, init);
      var prev := BonusPass(size, field, s, init);
      assert KeepsPaddle(b.kind);
      assert Effect(b.kind, prev.session, size).shipFrame == prev.session.shipFrame;
    }
  }

  /** A bonus stays through its step: it overlapped the field and, fallen, does not touch `paddle`. */
  predicate Stays(b: Bonus, field: Frame, paddle: Frame)
  {
    b.frame.IntersectsWith(field) && !b.Moved().frame.IntersectsWith(paddle)
  }

  /**
   * When no bonus of the pass moves or resizes the paddle, a bonus stays
   * exactly when it overlapped the field and, fallen, does not touch the
   * paddle; one that touches the paddle is activated and dropped.
   */
  lemma {:induction false} BonusPassKeptExactly(size: Size, field: Frame, s: Session, pending: seq<Bonus>, x: Bonus)
    requires forall k :: 0 <= k < |pending| ==> KeepsPaddle(pending[k].kind)
    ensures x in BonusPass(size, field, s, pending).kept <==>
              exists k :: 0 <= k < |pending| && Stays(pending[k], field, s.shipFrame) && x == pending[k].Moved()
  {
    if |pending| > 0 {
      var init := pending[..|pending| - 1];
      var b := pending[|pending| - 1];
      BonusPassKeptExactly(size, field, s, init, x);
      BonusPassKeepsPaddle(size, field, s, init);
      var prev := BonusPass(size, field, s, init);
      BonusStepKept(size, field, prev, b);
      StaysSplit(pending, init, field, s.shipFrame, x);
    }
  }

  /** Some bonus of `pending` stays and falls to `x` iff one before the last does, or the last does. */
  lemma StaysSplit(pending: seq<Bonus>, init: seq<Bonus>, field: Frame, paddle: Frame, x: Bonus)
    requires |pending| > 0 && init == pending[..|pending| - 1]
    ensures (exists k :: 0 <= k < |pending| && Stays(pending[k], field, paddle) && x == pending[k].Moved()) <==>
            (exists k :: 0 <= k < |init| && Stays(init[k], field, paddle) && x == init[k].Moved()) ||
            (Stays(pending[|pending| - 1], field, paddle) && x == pending[|pending| - 1].Moved())
  {
    if exists k :: 0 <= k < |pending| && Stays(pending[k], field, paddle) && x == pending[k].Moved() {
      var k :| 0 <= k < |pending| && Stays(pending[k], field, paddle) && x == pending[k].Moved();
      if k < |init| {
        assert init[k] == pending[k];
      }
    }
    if exists k :: 0 <= k < |init| && Stays(init[k], field, paddle) && x == init[k].Moved() {
      var k :| 0 <= k < |init| && Stays(init[k], field, paddle) && x == init[k].Moved();
      assert pending[k] == init[k];
    }
  }

  /** A pass keeps the ammunition a non-negative even number. */
  lemma {:induction false} BonusPassKeepsAmmoEven(size: Size, field: Frame, s: Session, pending: seq<Bonus>)
    requires s.ammo >= 0 && s.ammo % 2 == 0
    ensures BonusPass(size, field, s, pending).session.ammo >= 0
    ensures BonusPass(size, field, s, pending).session.ammo % 2 == 0
  {
    if |pending| > 0 {
      var prev := BonusPass(size, field, s, pending[..|pending| - 1]);
      BonusPassKeepsAmmoEven(size, field, s, pending[..|pending| - 1]);
      EffectKeepsAmmoEven(pending[|pending| - 1].kind, prev.session, size);
    }
  }

  /** Without Life or Death bonuses among them, a pass neither changes the lives nor resets. */
  lemma {:induction false} BonusPassLives(size: Size, field: Frame, s: Session, pending: seq<Bonus>)
    requires forall k :: 0 <= k < |pending| ==> pending[k].kind != LifeBonus && pending[k].kind != DeathBonus
    ensures BonusPass(size, field, s, pending).session.lives == s.lives
    ensures !BonusPass(size, field, s, pending).reset
  {
    if |pending| > 0 {
      var prev := BonusPass(size, field, s, pending[..|pending| - 1]);
      BonusPassLives(size, field, s, pending[..|pending| - 1]);
      LivesEffects(pending[|pending| - 1].kind, prev.session, size);
    }
  }

  /** The kinds of the bonuses of `pending` that, fallen, touch `paddle`, in order. */
  function Touching(pending: seq<Bonus>, paddle: Frame): (kinds: seq<BonusKind>)
    ensures |kinds| <= |pending|
  {
    if |pending| == 0 then []
    else if pending[|pending| - 1].Moved().frame.IntersectsWith(paddle) then
      Touching(pending[..|pending| - 1], paddle) + [pending[|pending| - 1].kind]
    else Touching(pending[..|pending| - 1], paddle)
  }

  /** Every kind in `Touching` is that of a pending bonus that, fallen, touches the paddle. */
  lemma {:induction false} TouchingFrom(pending: seq<Bonus>, paddle: Frame, kind: BonusKind)
    ensures kind in Touching(pending, paddle) ==>
              exists k :: 0 <= k < |pending| && pending[k].kind == kind && pending[k].Moved().frame.IntersectsWith(paddle)
  {
    if |pending| > 0 && kind in Touching(pending, paddle) {
      var init := pending[..|pending| - 1];
      if kind in Touching(init, paddle) {
        TouchingFrom(init, paddle, kind);
        var k :| 0 <= k < |init| && init[k].kind == kind && init[k].Moved().frame.IntersectsWith(paddle);
        assert pending[k] == init[k];
      }
    }
  }

  /** The pending bonuses of kind `kind` that, fallen, touch `paddle`, by position. */
  function CaughtOfKind(pending: seq<Bonus>, paddle: Frame, kind: BonusKind): set<int>
  {
    set i | 0 <= i < |pending| && pending[i].kind == kind && pending[i].Moved().frame.IntersectsWith(paddle)
  }

  /** Dropping the last pending bonus drops at most its own position from `CaughtOfKind`. */
  lemma CaughtOfKindStep(pending: seq<Bonus>, paddle: Frame, kind: BonusKind)
    requires |pending| > 0
    ensures var n := |pending| - 1;
            var before := CaughtOfKind(pending[..n], paddle, kind);
            n !in before &&
            (pending[n].kind == kind && pending[n].Moved().frame.IntersectsWith(paddle) ==>
               CaughtOfKind(pending, paddle, kind) == before + {n}) &&
            (!(pending[n].kind == kind && pending[n].Moved().frame.IntersectsWith(paddle)) ==>
               CaughtOfKind(pending, paddle, kind) == before)
  {
    var n := |pending| - 1;
    forall i | 0 <= i < n
      ensures pending[..n][i] == pending[i]
    {
    }
  }

  /** `Touching` lists each kind exactly as often as pending bonuses of that kind touch the paddle. */
  lemma {:induction false} TouchingCount(pending: seq<Bonus>, paddle: Frame, kind: BonusKind)
    ensures multiset(Touching(pending, paddle))[kind] == |CaughtOfKind(pending, paddle, kind)|
  {
    if |pending| == 0 {
      assert CaughtOfKind(pending, paddle, kind) == {};
    } else {
      var n := |pending| - 1;
      var init := pending[..n];
      var b := pending[n];
      TouchingCount(init, paddle, kind);
      CaughtOfKindStep(pending, paddle, kind);
      var t := Touching(init, paddle);
      assert multiset(t + [b.kind]) == multiset(t) + multiset{b.kind};
    }
  }

  /** The session after activating bonuses of the kinds `kinds`, in order, from `s`. */
  function Activated(kinds: seq<BonusKind>, s: Session, size: Size): Session
  {
    if |kinds| == 0 then s
    else Effect(kinds[|kinds| - 1], Activated(kinds[..|kinds| - 1], s, size), size)
  }

  /**
   * When no bonus of the pass moves or resizes the paddle, the pass leaves
   * the session that activating, in order, the bonuses that touch the paddle
   * gives.
   */
  lemma {:induction false} BonusPassActivates(size: Size, field: Frame, s: Session, pending: seq<Bonus>)
    requires forall k :: 0 <= k < |pending| ==> KeepsPaddle(pending[k].kind)
    ensures BonusPass(size, field, s, pending).session == Activated(Touching(pending, s.shipFrame), s, size)
  {
    if |pending| > 0 {
      var init := pending[..|pending| - 1];
      var b := pending[|pending| - 1];
      BonusPassActivates(size, field, s, init);
      BonusPassKeepsPaddle(size, field, s, init);
      var t := Touching(init, s.shipFrame);
      assert (t + [b.kind])[..|t|] == t;
    }
  }

  /**
   * Activating bonuses that leave the paddle alone adds one life per Life
   * bonus and 12 rounds per Bullet bonus, makes the ball Fiery if a FireBall
   * bonus is among them and fast if a FastBall bonus is, and changes nothing
   * else.
   */
  lemma {:induction false} ActivatedSession(kinds: seq<BonusKind>, s: Session, size: Size)
    requires forall i :: 0 <= i < |kinds| ==> KeepsPaddle(kinds[i])
    ensures Activated(kinds, s, size) ==
              s.(ammo := s.ammo + 12 * multiset(kinds)[BulletBonus],
                 ballVelocity := if FastBallBonus in kinds then 1.5 * BallVelocity else s.ballVelocity,
                 ballState := if FireBallBonus in kinds then Fiery else s.ballState,
                 lives := s.lives + multiset(kinds)[LifeBonus])
  {
    if |kinds| > 0 {
      var init := kinds[..|kinds| - 1];
      var last := kinds[|kinds| - 1];
      ActivatedSession(init, s, size);
      assert kinds == init + [last];
      assert multiset(kinds) == multiset(init) + multiset{last};
      assert KeepsPaddle(last);
    }
  }

  /**
   * When no bonus of the pass moves or resizes the paddle, each Life bonus
   * that touches the paddle adds exactly one life and each Bullet bonus
   * exactly 12 rounds; the ball is Fiery or fast iff such a bonus touched it
   * or it already was; the paddle and the ball's frame stay.
   */
  lemma BonusPassSession(size: Size, field: Frame, s: Session, pending: seq<Bonus>)
    requires forall k :: 0 <= k < |pending| ==> KeepsPaddle(pending[k].kind)
    ensures var caught := Touching(pending, s.shipFrame);
            BonusPass(size, field, s, pending).session ==
              s.(ammo := s.ammo + 12 * multiset(caught)[BulletBonus],
                 ballVelocity := if FastBallBonus in caught then 1.5 * BallVelocity else s.ballVelocity,
                 ballState := if FireBallBonus in caught then Fiery else s.ballState,
                 lives := s.lives + multiset(caught)[LifeBonus])
  {
    var caught := Touching(pending, s.shipFrame);
    BonusPassActivates(size, field, s, pending);
    forall i | 0 <= i < |caught|
      ensures KeepsPaddle(caught[i])
    {
      TouchingFrom(pending, s.shipFrame, caught[i]);
    }
    ActivatedSession(caught, s, size);
  }

  /** A bullet stays after its step iff it overlapped the field and, fallen, touches no brick. */
  predicate BulletSurvives(b: Bullet, blocks: set<Brick>, field: Frame)
  {
    b.frame.IntersectsWith(field) && HitBy(b.Moved(), blocks) == {}
  }

  /** The bricks a bullet touches. */
  function HitBy(b: Bullet, blocks: set<Brick>): set<Brick>
  {
    set block | block in blocks && b.frame.IntersectsWith(block.frame)
  }

  /** The bullets that stay after a tick, moved one step up, in their original order. */
  function KeptBullets(bullets: seq<Bullet>, blocks: set<Brick>, field: Frame): seq<Bullet>
  {
    if |bullets| == 0 then []
    else
      var last := bullets[|bullets| - 1];
      if BulletSurvives(last, blocks, field)
      then KeptBullets(bullets[..|bullets| - 1], blocks, field) + [last.Moved()]
      else KeptBullets(bullets[..|bullets| - 1], blocks, field)
  }

  /** The bricks the moved bullets touch. */
  function StruckBricks(bullets: seq<Bullet>, blocks: set<Brick>): set<Brick>
  {
    if |bullets| == 0 then {}
    else StruckBricks(bullets[..|bullets| - 1], blocks) + HitBy(bullets[|bullets| - 1].Moved(), blocks)
  }

  /**
   * The bullet step removes exactly the bricks some moved bullet touches,
   * bullets that were off the field included.
   */
  lemma {:induction false} StruckBricksExactly(bullets: seq<Bullet>, blocks: set<Brick>, e: Brick)
    ensures e in StruckBricks(bullets, blocks) <==>
              e in blocks && exists k :: 0 <= k < |bullets| && bullets[k].Moved().frame.IntersectsWith(e.frame)
  {
    if |bullets| > 0 {
      var init := bullets[..|bullets| - 1];
      StruckBricksExactly(init, blocks, e);
      if e in blocks && exists k :: 0 <= k < |bullets| && bullets[k].Moved().frame.IntersectsWith(e.frame) {
        var k :| 0 <= k < |bullets| && bullets[k].Moved().frame.IntersectsWith(e.frame);
        if k < |init| {
          assert init[k] == bullets[k];
        }
      }
      if e in StruckBricks(init, blocks) {
        var k :| 0 <= k < |init| && init[k].Moved().frame.IntersectsWith(e.frame);
        assert bullets[k] == init[k];
      }
    }
  }

  /** Only bricks of `blocks` are struck. */
  lemma {:induction false} StruckWithin(bullets: seq<Bullet>, blocks: set<Brick>)
    ensures StruckBricks(bullets, blocks) <= blocks
  {
    if |bullets| > 0 {
      StruckWithin(bullets[..|bullets| - 1], blocks);
    }
  }

  /**
   * The bullets that stay are exactly the moved copies of those that
   * overlapped the field and, moved, touch no brick.
   */
  lemma {:induction false} KeptBulletsExactly(bullets: seq<Bullet>, blocks: set<Brick>, field: Frame, x: Bullet)
    ensures x in KeptBullets(bullets, blocks, field) <==>
              exists k :: 0 <= k < |bullets| && BulletSurvives(bullets[k], blocks, field) && x == bullets[k].Moved()
  {
    if |bullets| > 0 {
      var init := bullets[..|bullets| - 1];
      KeptBulletsExactly(init, blocks, field, x);
      if exists k :: 0 <= k < |bullets| && BulletSurvives(bullets[k], blocks, field) && x == bullets[k].Moved() {
        var k :| 0 <= k < |bullets| && BulletSurvives(bullets[k], blocks, field) && x == bullets[k].Moved();
        if k < |init| {
          assert init[k] == bullets[k];
        }
      }
      if x in KeptBullets(init, blocks, field) {
        var k :| 0 <= k < |init| && BulletSurvives(init[k], blocks, field) && x == init[k].Moved();
        assert bullets[k] == init[k];
      }
    }
  }

  /**
   * The bullet loop of `tick`: every bullet moves one step up and strikes
   * every brick of `blocks` it then touches; the bullets that stay and the
   * bricks struck are returned.
   */
  method AdvanceBullets(bullets: seq<Bullet>, blocks: set<Brick>, field: Frame)
    returns (kept: seq<Bullet>, struck: set<Brick>)
    ensures kept == KeptBullets(bullets, blocks, field)
    ensures struck == StruckBricks(bullets, blocks)
  {
    kept := [];
    struck := {};
    var i := 0;
    while i < |bullets|
      invariant 0 <= i <= |bullets|
      invariant kept == KeptBullets(bullets[..i], blocks, field)
      invariant struck == StruckBricks(bullets[..i], blocks)
    {
      var bullet := bullets[i];
      var moved := bullet.Moved();
      var hit := HitBricks(moved, blocks);
      struck := struck + hit;
      if bullet.frame.IntersectsWith(field) && hit == {} {
        kept := kept + [moved];
      }
      assert bullets[..i + 1][..i] == bullets[..i];
      i := i + 1;
    }
    assert bullets[..i] == bullets;
  }

  /** The inner loop over the bricks: those the bullet touches. */
  method HitBricks(bullet: Bullet, blocks: set<Brick>) returns (hit: set<Brick>)
    ensures hit == HitBy(bullet, blocks)
  {
    hit := {};
    var rest := blocks;
    while rest != {}
      invariant rest <= blocks
      invariant hit == HitBy(bullet, blocks - rest)
      decreases |rest|
    {
      var block :| block in rest;
      if bullet.frame.IntersectsWith(block.frame) {
        hit := hit + {block};
      }
      rest := rest - {block};
    }
  }

  /** The play field of a window of the given size. */
  function Field(size: Size): Frame
  {
    Frame(0, 0, size.width, size.height)
  }

  /**
   * The whole state of a game as a value: the session part a bonus can
   * affect, the flags and counters, the active level, and the live bonuses
   * and bullets.
   */
  datatype GameState = GameState(session: Session, gameover: bool, currentLevel: int, scores: int,
                             level: Level, bonuses: seq<Bonus>, bullets: seq<Bullet>)

  /**
   * The movement phase: the paddle steps by its velocity times `turnRate`
   * and is clamped to the field; a Caught ball follows it by the paddle's
   * actual displacement, any other ball flies by `flight`.
   */
  function MovePhase(w: GameState, field: Frame, turnRate: int, flight: Offset): GameState
  {
    var s := w.session;
    var x := Clamp(s.shipFrame.x + Step(Rightward, s.shipVelocity, turnRate).dx,
                   0, field.Right() - s.shipFrame.width);
    var ball := if s.ballState == Caught then s.ballFrame.Relocate(x - s.shipFrame.x, 0)
                else s.ballFrame.Relocate(flight.dx, flight.dy);
    w.(session := s.(shipFrame := s.shipFrame.WithLocation(x, s.shipFrame.y), ballFrame := ball))
  }

  /** The drop phase: a ball whose middle is below the deadly height costs a life and resets the round. */
  function DropPhase(w: GameState, size: Size): GameState
  {
    if w.session.ballFrame.Middle() > DeadlyHeight(size)
    then w.(session := ResetSession(size, w.session.lives - 1), bonuses := [], bullets := [])
    else w
  }

  /**
   * The clear phase: an empty level scores 1000 times the level number and
   * the number goes up; if the catalog (levels 1 to 3) has a level with the
   * new number, it is loaded and the round is reset.
   */
  function ClearPhase(w: GameState, size: Size, levels: map<int, Level>): GameState
    requires levels.Keys == {1, 2, 3}
  {
    if w.level.blocks != {} then w
    else
      var next := w.currentLevel + 1;
      var counted := w.(scores := w.scores + 1000 * w.currentLevel, currentLevel := next);
      if 1 <= next <= 3
      then counted.(level := levels[next], session := ResetSession(size, w.session.lives), bonuses := [], bullets := [])
      else counted
  }

  /** The bricks of the active level the ball touches. */
  function BallHits(w: GameState): set<Brick>
  {
    set block | block in w.level.blocks && block.frame.IntersectsWith(w.session.ballFrame)
  }

  /**
   * The strike phase: the bricks the ball touches score 30 each and, when
   * `spawn` holds and there is one, a bonus of kind `Table[pick]` appears at
   * the origin of `at`, the brick the iteration yields first.
   */
  function StrikePhase(w: GameState, spawn: bool, pick: int, at: Brick): GameState
    requires 0 <= pick < |Table|
  {
    var hits := BallHits(w);
    w.(scores := w.scores + 30 * |hits|,
       bonuses := if spawn && hits != {} then w.bonuses + [NewBonus(Table[pick], at.frame.x, at.frame.y)]
                  else w.bonuses)
  }

  /** The bonus phase: one `BonusPass`; a Death bonus leaves no bonuses and no bullets. */
  function BonusPhase(w: GameState, size: Size): GameState
  {
    var r := BonusPass(size, Field(size), w.session, w.bonuses);
    w.(session := r.session,
       bonuses := if r.reset then [] else r.kept,
       bullets := if r.reset then [] else w.bullets)
  }

  /**
   * The bullet phase: the bullets advance, and the bricks in `hits` and
   * those the moved bullets touch leave the level.
   */
  function BulletPhase(w: GameState, size: Size, hits: set<Brick>): GameState
  {
    var blocks := w.level.blocks;
    w.(level := w.level.(blocks := blocks - (hits + StruckBricks(w.bullets, blocks))),
       bullets := KeptBullets(w.bullets, blocks, Field(size)))
  }

  /**
   * One frame and what happened in it: the new state, the bricks the ball
   * hit, the bricks the bullets struck, the ball's frame when it struck, the
   * bonuses that went through the bonus phase and the bullets that advanced.
   */
  datatype Played = Played(state: GameState, hits: set<Brick>, struck: set<Brick>,
                           ballAt: Frame, pending: seq<Bonus>, volley: seq<Bullet>)

  /**
   * The bricks a frame plays on: those of the next level when the active
   * one is empty and a next level exists, otherwise the active level's.
   */
  function LevelPool(w: GameState, levels: map<int, Level>): set<Brick>
    requires levels.Keys == {1, 2, 3}
  {
    if w.level.blocks == {} && 1 <= w.currentLevel + 1 <= 3 then levels[w.currentLevel + 1].blocks
    else w.level.blocks
  }

  /** The state after the move, drop and clear phases. */
  function Prepared(w: GameState, size: Size, levels: map<int, Level>, turnRate: int, flight: Offset): GameState
    requires levels.Keys == {1, 2, 3}
  {
    ClearPhase(DropPhase(MovePhase(w, Field(size), turnRate, flight), size), size, levels)
  }

  /** One frame of a game in play: the six phases in order. */
  function PlayFrame(w: GameState, size: Size, levels: map<int, Level>, turnRate: int, flight: Offset,
                     spawn: bool, pick: int, at: Brick): Played
    requires levels.Keys == {1, 2, 3}
    requires 0 <= pick < |Table|
  {
    var pre := Prepared(w, size, levels, turnRate, flight);
    var hits := BallHits(pre);
    var struck := StrikePhase(pre, spawn, pick, at);
    var passed := BonusPhase(struck, size);
    Played(BulletPhase(passed, size, hits), hits, StruckBricks(passed.bullets, passed.level.blocks),
           pre.session.ballFrame, struck.bonuses, passed.bullets)
  }

  /**
   * `tick`: a finished game stays as it is; a game with no lives left
   * becomes finished; any other game plays one frame.
   */
  function TickFrame(w: GameState, size: Size, levels: map<int, Level>, turnRate: int, flight: Offset,
                     spawn: bool, pick: int, at: Brick): Played
    requires levels.Keys == {1, 2, 3}
    requires 0 <= pick < |Table|
  {
    if w.gameover then Played(w, {}, {}, w.session.ballFrame, [], [])
    else if w.session.lives == 0 then Played(w.(gameover := true), {}, {}, w.session.ballFrame, [], [])
    else PlayFrame(w, size, levels, turnRate, flight, spawn, pick, at)
  }


  /**
   * What the move, drop and clear phases leave: the counters and the level
   * as `ClearLevel` sets them, one life fewer after a drop, and a fresh
   * round (ball back on the paddle, no bonuses, no bullets) after a drop
   * or a level advance.
   */
  lemma PreparedState(w: GameState, size: Size, levels: map<int, Level>, turnRate: int, flight: Offset)
    requires levels.Keys == {1, 2, 3}
    ensures var moved := MovePhase(w, Field(size), turnRate, flight).session;
            var dropped := moved.ballFrame.Middle() > DeadlyHeight(size);
            var cleared := w.level.blocks == {};
            var advanced := cleared && 1 <= w.currentLevel + 1 <= 3;
            var pre := Prepared(w, size, levels, turnRate, flight);
            pre.gameover == w.gameover &&
            pre.currentLevel == (if cleared then w.currentLevel + 1 else w.currentLevel) &&
            pre.scores == w.scores + (if cleared then 1000 * w.currentLevel else 0) &&
            pre.level == (if advanced then levels[w.currentLevel + 1] else w.level) &&
            pre.level.blocks == LevelPool(w, levels) &&
            pre.session.lives == (if dropped then w.session.lives - 1 else w.session.lives) &&
            pre.session.ballFrame == (if dropped || advanced then StartBallFrame(size) else moved.ballFrame) &&
            pre.bonuses == (if dropped || advanced then [] else w.bonuses) &&
            pre.bullets == (if dropped || advanced then [] else w.bullets)
  {
  }

  /**
   * The bricks of a played frame: the level loses exactly the bricks the
   * ball hit and those the advancing bullets struck, both taken from the
   * level as the clear phase leaves it. A brick is hit iff it touches the
   * ball's frame at the strike, and struck iff some advancing bullet, moved
   * one step, touches it.
   */
  lemma PlayBricks(w: GameState, size: Size, levels: map<int, Level>, turnRate: int, flight: Offset,
                   spawn: bool, pick: int, at: Brick, e: Brick)
    requires levels.Keys == {1, 2, 3}
    requires 0 <= pick < |Table|
    ensures var pool := Prepared(w, size, levels, turnRate, flight).level.blocks;
            var p := PlayFrame(w, size, levels, turnRate, flight, spawn, pick, at);
            p.state.level.blocks == pool - (p.hits + p.struck) &&
            p.hits <= pool && p.struck <= pool &&
            (e in p.hits <==> e in pool && e.frame.IntersectsWith(p.ballAt)) &&
            (e in p.struck <==> e in pool && exists k :: 0 <= k < |p.volley| && p.volley[k].Moved().frame.IntersectsWith(e.frame))
  {
    var pool := Prepared(w, size, levels, turnRate, flight).level.blocks;
    var p := PlayFrame(w, size, levels, turnRate, flight, spawn, pick, at);
    StruckBricksExactly(p.volley, pool, e);
    StruckWithin(p.volley, pool);
  }

  /**
   * The bullets after a played frame are exactly the advancing bullets that
   * overlapped the field and, moved one step, touch no brick, moved.
   */
  lemma PlayBullets(w: GameState, size: Size, levels: map<int, Level>, turnRate: int, flight: Offset,
                    spawn: bool, pick: int, at: Brick, x: Bullet)
    requires levels.Keys == {1, 2, 3}
    requires 0 <= pick < |Table|
    ensures var pool := Prepared(w, size, levels, turnRate, flight).level.blocks;
            var p := PlayFrame(w, size, levels, turnRate, flight, spawn, pick, at);
            x in p.state.bullets <==>
              exists k :: 0 <= k < |p.volley| && BulletSurvives(p.volley[k], pool, Field(size)) && x == p.volley[k].Moved()
  {
    var pool := Prepared(w, size, levels, turnRate, flight).level.blocks;
    var p := PlayFrame(w, size, levels, turnRate, flight, spawn, pick, at);
    KeptBulletsExactly(p.volley, pool, Field(size), x);
  }

  /**
   * The counters after a played frame: the clear phase's 1000 per level
   * number plus 30 per brick the ball hit (struck bricks score nothing); the
   * level number as the clear phase leaves it; the game goes on.
   */
  lemma PlayCounters(w: GameState, size: Size, levels: map<int, Level>, turnRate: int, flight: Offset,
                     spawn: bool, pick: int, at: Brick)
    requires levels.Keys == {1, 2, 3}
    requires 0 <= pick < |Table|
    ensures var cleared := w.level.blocks == {};
            var p := PlayFrame(w, size, levels, turnRate, flight, spawn, pick, at);
            p.state.scores == w.scores + (if cleared then 1000 * w.currentLevel else 0) + 30 * |p.hits| &&
            p.state.currentLevel == (if cleared then w.currentLevel + 1 else w.currentLevel) &&
            p.state.gameover == w.gameover
  {
    PreparedState(w, size, levels, turnRate, flight);
  }

  /**
   * The bonuses of a played frame: those the clear phase leaves plus the one
   * spawned at `at`, if any, go through `BonusPass` from the session the
   * clear phase leaves; the bullets advance unless a Death bonus was caught.
   */
  lemma PlayBonuses(w: GameState, size: Size, levels: map<int, Level>, turnRate: int, flight: Offset,
                    spawn: bool, pick: int, at: Brick)
    requires levels.Keys == {1, 2, 3}
    requires 0 <= pick < |Table|
    ensures var pre := Prepared(w, size, levels, turnRate, flight);
            var p := PlayFrame(w, size, levels, turnRate, flight, spawn, pick, at);
            var r := BonusPass(size, Field(size), pre.session, p.pending);
            p.pending == pre.bonuses + (if spawn && p.hits != {} then [NewBonus(Table[pick], at.frame.x, at.frame.y)] else []) &&
            p.state.session == r.session &&
            p.state.bonuses == (if r.reset then [] else r.kept) &&
            p.volley == (if r.reset then [] else pre.bullets)
  {
  }

  /**
   * Without a Life or Death bonus among those that fall, a played frame
   * costs exactly one life when the ball drops and none otherwise, and every
   * bullet the clear phase leaves advances.
   */
  lemma {:induction false} PlayLives(w: GameState, size: Size, levels: map<int, Level>, turnRate: int, flight: Offset,
                                     spawn: bool, pick: int, at: Brick)
    requires levels.Keys == {1, 2, 3}
    requires 0 <= pick < |Table|
    requires var p := PlayFrame(w, size, levels, turnRate, flight, spawn, pick, at);
             forall k :: 0 <= k < |p.pending| ==> p.pending[k].kind != LifeBonus && p.pending[k].kind != DeathBonus
    ensures var moved := MovePhase(w, Field(size), turnRate, flight).session;
            var dropped := moved.ballFrame.Middle() > DeadlyHeight(size);
            var p := PlayFrame(w, size, levels, turnRate, flight, spawn, pick, at);
            p.state.session.lives == (if dropped then w.session.lives - 1 else w.session.lives) &&
            p.volley == Prepared(w, size, levels, turnRate, flight).bullets
  {
    var pre := Prepared(w, size, levels, turnRate, flight);
    var p := PlayFrame(w, size, levels, turnRate, flight, spawn, pick, at);
    PreparedState(w, size, levels, turnRate, flight);
    BonusPassLives(size, Field(size), pre.session, p.pending);
  }

  /**
   * When no bonus that falls in a played frame moves or resizes the paddle,
   * the frame's session is the one the clear phase leaves, plus one life per
   * Life bonus and 12 rounds per Bullet bonus caught by the paddle, with the
   * ball Fiery or fast iff such a bonus was caught or it already was.
   */
  lemma PlayCatches(w: GameState, size: Size, levels: map<int, Level>, turnRate: int, flight: Offset,
                    spawn: bool, pick: int, at: Brick)
    requires levels.Keys == {1, 2, 3}
    requires 0 <= pick < |Table|
    requires var p := PlayFrame(w, size, levels, turnRate, flight, spawn, pick, at);
             forall k :: 0 <= k < |p.pending| ==> KeepsPaddle(p.pending[k].kind)
    ensures var s := Prepared(w, size, levels, turnRate, flight).session;
            var p := PlayFrame(w, size, levels, turnRate, flight, spawn, pick, at);
            var caught := Touching(p.pending, s.shipFrame);
            p.state.session ==
              s.(ammo := s.ammo + 12 * multiset(caught)[BulletBonus],
                 ballVelocity := if FastBallBonus in caught then 1.5 * BallVelocity else s.ballVelocity,
                 ballState := if FireBallBonus in caught then Fiery else s.ballState,
                 lives := s.lives + multiset(caught)[LifeBonus])
  {
    var s := Prepared(w, size, levels, turnRate, flight).session;
    var p := PlayFrame(w, size, levels, turnRate, flight, spawn, pick, at);
    BonusPassSession(size, Field(size), s, p.pending);
  }

  /**
   * `tick` as a whole: a finished game does not change and nothing is hit; a
   * game with no lives left only becomes finished; any other game plays one
   * frame. From a level number of at least 1 the score never drops.
   */
  lemma TickCases(w: GameState, size: Size, levels: map<int, Level>, turnRate: int, flight: Offset,
                  spawn: bool, pick: int, at: Brick)
    requires levels.Keys == {1, 2, 3}
    requires 0 <= pick < |Table|
    ensures var p := TickFrame(w, size, levels, turnRate, flight, spawn, pick, at);
            (w.gameover ==> p.state == w && p.hits == {} && p.struck == {}) &&
            (!w.gameover && w.session.lives == 0 ==> p.state == w.(gameover := true) && p.hits == {} && p.struck == {}) &&
            (!w.gameover && w.session.lives != 0 ==> p == PlayFrame(w, size, levels, turnRate, flight, spawn, pick, at)) &&
            (w.currentLevel >= 1 ==> p.state.scores >= w.scores)
  {
    if !w.gameover && w.session.lives != 0 {
      PlayCounters(w, size, levels, turnRate, flight, spawn, pick, at);
    }
  }

  /** The game session. */
  class GameModel {
    const size: Size
    const frame: Frame
    var gameover: bool
    var lives: int
    var currentLevel: int
    var scores: int
    const ship: Ship
    const ball: Ball
    const deadlyHeight: int
    const levels: map<int, Level>
    var level: Level
    var bonuses: seq<Bonus>
    var bullets: seq<Bullet>

    /**
     * The session invariant: the field is the window, the deadly height is
     * the start paddle's middle, the catalog holds levels 1, 2 and 3 under
     * their numbers, the active level is the current one (or the last, after
     * it is cleared) and has lost bricks only, the score is non-negative and
     * the paddle's ammunition is a non-negative even number.
     */
    predicate Valid()
      reads this, ship
    {
      frame == Field(size) &&
      deadlyHeight == DeadlyHeight(size) &&
      levels.Keys == {1, 2, 3} && (forall k :: k in levels ==> levels[k].lvl == k) &&
      currentLevel >= 1 &&
      (currentLevel <= 3 ==> level.lvl == currentLevel) &&
      (currentLevel > 3 ==> level.lvl == 3) &&
      level.lvl in levels && level.blocks <= levels[level.lvl].blocks &&
      scores >= 0 &&
      ship.bullets >= 0 && ship.bullets % 2 == 0
    }

    /** The part of the state a bonus can affect. */
    function Snap(): Session
      reads this, ship, ball
    {
      Session(ship.frame, ship.velocity, ship.bullets, ball.frame, ball.velocity, ball.state, lives)
    }

    /** The whole state of this game as a value. */
    function State(): GameState
      reads this, ship, ball
    {
      GameState(Snap(), gameover, currentLevel, scores, level, bonuses, bullets)
    }

    /**
     * A new game: three lives, no score, level 1 loaded, no bullets or
     * bonuses, and the ball caught on the centred paddle.
     */
    constructor (size: Size)
      ensures Valid()
      ensures this.size == size && !gameover && lives == 3 && currentLevel == 1 && scores == 0
      ensures levels == Catalog(size) && level == levels[1] && bonuses == [] && bullets == []
      ensures Snap() == ResetSession(size, 3)
    {
      this.size := size;
      frame := Frame(0, 0, size.width, size.height);
      gameover := false;
      lives := 3;
      currentLevel := 1;
      scores := 0;
      var start := StartShipFrame(size);
      var newShip := new Ship(start.x, start.y);
      var newBall := new Ball(StartBallFrame(size).x, StartBallFrame(size).y);
      newBall.StickToShip();
      ship := newShip;
      ball := newBall;
      deadlyHeight := newShip.frame.Bottom() - newShip.frame.height / 2;
      var catalog := GetLevels(size);
      levels := catalog;
      level := catalog[1];
      bonuses := [];
      bullets := [];
      new;
      CatalogKeys(size);
    }

    /** `release_ball`: the ball is Free, whatever its state was. */
    method ReleaseBall()
      modifies ball
      ensures ball.state == Free
      ensures ball.frame == old(ball.frame) && ball.velocity == old(ball.velocity)
    {
      ball.state := Free;
    }

    /**
     * `shooting`: with ammunition left, two rounds are spent and a bullet
     * appears at each of the paddle's top corners; otherwise nothing happens.
     */
    method Shooting()
      requires Valid()
      modifies this`bullets, ship`bullets
      ensures Valid()
      ensures old(ship.bullets) > 0 ==>
                ship.bullets == old(ship.bullets) - 2 &&
                bullets == old(bullets) + [NewBullet(ship.frame.Left(), ship.frame.Top()),
                                           NewBullet(ship.frame.Right(), ship.frame.Top())]
      ensures old(ship.bullets) <= 0 ==> ship.bullets == old(ship.bullets) && bullets == old(bullets)
    {
      if ship.bullets > 0 {
        ship.bullets := ship.bullets - 2;
        var bullet1 := NewBullet(ship.frame.Left(), ship.frame.Top());
        var bullet2 := NewBullet(ship.frame.Right(), ship.frame.Top());
        bullets := bullets + [bullet1, bullet2];
      }
    }

    /**
     * `reset`: no bonuses or bullets, and the paddle and the ball start a
     * round: the paddle centred on the bottom, the ball caught on it. The
     * counters and the level stay.
     */
    method Reset()
      modifies this`bonuses, this`bullets, ship, ball
      ensures bonuses == [] && bullets == []
      ensures Snap() == ResetSession(size, lives)
    {
      bonuses := [];
      bullets := [];
      ship.Restart(TruncHalf(size.width - ShipSize.width), size.height - ShipSize.height);
      var ballX := ship.frame.x + TruncHalf(ship.frame.width - BallSize.width);
      var ballY := ship.frame.Top() - BallSize.height;
      ball.Restart(ballX, ballY);
      ball.StickToShip();
    }

    /**
     * `normalize_ship_location`: the paddle's x is clamped to
     * [0, field right - paddle width]; its y and size stay.
     */
    method NormalizeShipLocation()
      modifies ship`frame
      ensures ship.frame == old(ship.frame).WithLocation(
                Clamp(old(ship.frame.Left()), 0, frame.Right() - old(ship.frame.width)), old(ship.frame.y))
      ensures ship.frame.width <= frame.Right() ==> 0 <= ship.frame.x <= frame.Right() - ship.frame.width
    {
      var x := Min(Max(0, ship.frame.Left()), frame.Right() - ship.frame.width);
      ship.frame := ship.frame.WithLocation(x, ship.frame.y);
    }

    /**
     * `try_get_next_level`: the level number always goes up by one; if a
     * level with that number exists it is loaded and the round is reset, and
     * the result says whether that happened.
     */
    method TryGetNextLevel() returns (advanced: bool)
      requires Valid()
      modifies this`currentLevel, this`level, this`bonuses, this`bullets, ship, ball
      ensures Valid()
      ensures currentLevel == old(currentLevel) + 1
      ensures advanced <==> currentLevel <= 3
      ensures advanced ==> level == levels[currentLevel] && bonuses == [] && bullets == [] &&
                           Snap() == ResetSession(size, lives)
      ensures !advanced ==> level == old(level) && bonuses == old(bonuses) && bullets == old(bullets) &&
                            Snap() == old(Snap())
    {
      assert |levels| == |levels.Keys| == 3;
      currentLevel := currentLevel + 1;
      if currentLevel < |levels| + 1 {
        level := levels[currentLevel];
        Reset();
        advanced := true;
      } else {
        advanced := false;
      }
    }

    /** Applies a caught bonus of kind `kind` (the `activate` methods). */
    method ActivateBonus(kind: BonusKind)
      modifies this`lives, this`bonuses, this`bullets, ship, ball
      ensures Snap() == Effect(kind, old(Snap()), size)
      ensures kind == DeathBonus ==> bonuses == [] && bullets == []
      ensures kind != DeathBonus ==> bonuses == old(bonuses) && bullets == old(bullets)
    {
      match kind
      case PlainBonus =>
      case DecreaseBonus => ship.Narrow();
      case ExpandBonus => ship.Expand();
      case BulletBonus => ship.GetAmmo(12);
      case FireBallBonus => ball.ChangeState(Fiery);
      case FastBallBonus => ball.Accelerate();
      case LifeBonus => lives := lives + 1;
      case DeathBonus =>
        lives := lives - 1;
        Reset();
    }

    /**
     * The bonus part of `tick`: one `BonusPass` over the live bonuses. If a
     * Death bonus reset the round, no bonus stays.
     */
    method ProcessBonuses()
      requires Valid()
      modifies this`lives, this`bonuses, this`bullets, ship, ball
      ensures Valid()
      ensures var r := BonusPass(size, frame, old(Snap()), old(bonuses));
              Snap() == r.session &&
              bonuses == (if r.reset then [] else r.kept) &&
              bullets == (if r.reset then [] else old(bullets))
      ensures State() == BonusPhase(old(State()), size)
    {
      var pending := bonuses;
      ghost var start := Snap();
      var kept: seq<Bonus> := [];
      var wasReset := false;
      var i := 0;
      while i < |pending|
        invariant 0 <= i <= |pending|
        invariant BonusPass(size, frame, start, pending[..i]) == BonusPassResult(Snap(), kept, wasReset)
        invariant bullets == (if wasReset then [] else old(bullets))
      {
        var bonus := pending[i];
        var moved := bonus.Moved();
        BonusPassUnfold(size, frame, start, pending, i);
        if moved.frame.IntersectsWith(ship.frame) {
          ActivateBonus(bonus.kind);
          if bonus.kind == DeathBonus {
            wasReset := true;
          }
        } else if bonus.frame.IntersectsWith(frame) {
          kept := kept + [moved];
        }
        i := i + 1;
      }
      assert pending[..i] == pending;
      bonuses := if wasReset then [] else kept;
      BonusPassKeepsAmmoEven(size, frame, start, pending);
    }

    /**
     * The movement part of `tick`: the paddle moves by its velocity times
     * `turnRate` and is clamped to the field; a Caught ball follows it by
     * exactly the paddle's actual displacement, any other ball flies by
     * `flight`.
     */
    method MoveShipAndBall(turnRate: int, flight: Offset)
      modifies ship`frame, ball`frame
      ensures ship.frame == old(ship.frame).WithLocation(
                Clamp(old(ship.frame.x) + Step(Rightward, ship.velocity, turnRate).dx,
                      0, frame.Right() - old(ship.frame.width)),
                old(ship.frame.y))
      ensures ball.state == Caught ==> ball.frame == old(ball.frame).Relocate(ship.frame.x - old(ship.frame.x), 0)
      ensures ball.state != Caught ==> ball.frame == old(ball.frame).Relocate(flight.dx, flight.dy)
      ensures State() == MovePhase(old(State()), frame, turnRate, flight)
    {
      var oldX := ship.frame.x;
      ship.Move(turnRate);
      NormalizeShipLocation();
      ball.Move(ship.frame.x - oldX, flight);
    }

    /** The life-loss part of `tick`: a ball whose middle is below the deadly height costs a life and resets the round. */
    method DropBall()
      requires Valid()
      modifies this`lives, this`bonuses, this`bullets, ship, ball
      ensures Valid()
      ensures old(ball.frame.Middle()) > deadlyHeight ==>
                lives == old(lives) - 1 && Snap() == ResetSession(size, lives) && bonuses == [] && bullets == []
      ensures old(ball.frame.Middle()) <= deadlyHeight ==>
                Snap() == old(Snap()) && bonuses == old(bonuses) && bullets == old(bullets)
      ensures State() == DropPhase(old(State()), size)
    {
      if ball.frame.Middle() > deadlyHeight {
        lives := lives - 1;
        Reset();
      }
    }

    /**
     * The level-clear part of `tick`: an empty level scores 1000 times the
     * level number and the next level is tried.
     */
    method ClearLevel()
      requires Valid()
      modifies this`scores, this`currentLevel, this`level, this`bonuses, this`bullets, ship, ball
      ensures Valid()
      ensures old(level.blocks) == {} ==>
                scores == old(scores) + 1000 * old(currentLevel) && currentLevel == old(currentLevel) + 1 &&
                level.blocks == (if currentLevel <= 3 then levels[currentLevel].blocks else old(level.blocks))
      ensures old(level.blocks) != {} ==>
                scores == old(scores) && currentLevel == old(currentLevel) && level == old(level) &&
                Snap() == old(Snap()) && bonuses == old(bonuses) && bullets == old(bullets)
      ensures old(level.blocks) == {} && currentLevel <= 3 ==>
                Snap() == ResetSession(size, lives) && bonuses == [] && bullets == []
      ensures old(level.blocks) == {} && currentLevel > 3 ==>
                level == old(level) && Snap() == old(Snap()) && bonuses == old(bonuses) && bullets == old(bullets)
      ensures State() == ClearPhase(old(State()), size, levels)
    {
      if |level.blocks| == 0 {
        scores := scores + 1000 * currentLevel;
        var _ := TryGetNextLevel();
      }
    }

    /**
     * The ball-and-bricks part of `tick`: the bricks the ball touches score
     * 30 each and, when `spawn` holds, a bonus of kind `Table[pick]` appears
     * at the origin of one of them.
     */
    method BallStrikes(spawn: bool, pick: int) returns (ballHits: set<Brick>, ghost at: Brick)
      requires Valid()
      requires 0 <= pick < |Table|
      modifies this`scores, this`bonuses
      ensures Valid()
      ensures ballHits == set block | block in level.blocks && block.frame.IntersectsWith(ball.frame)
      ensures scores == old(scores) + 30 * |ballHits|
      ensures ballHits == {} || !spawn ==> bonuses == old(bonuses)
      ensures ballHits != {} && spawn ==>
                exists block :: block in ballHits &&
                  bonuses == old(bonuses) + [NewBonus(Table[pick], block.frame.x, block.frame.y)]
      ensures ballHits == BallHits(old(State())) && (ballHits != {} ==> at in ballHits)
      ensures State() == StrikePhase(old(State()), spawn, pick, at)
    {
      ballHits := set block | block in level.blocks && block.frame.IntersectsWith(ball.frame);
      at := NewBrick(0, 0);
      if |ballHits| != 0 {
        var block :| block in ballHits;
        at := block;
        if spawn {
          bonuses := bonuses + [NewBonus(GetRandomBonus(pick), block.frame.x, block.frame.y)];
        }
      }
      scores := scores + 30 * |ballHits|;
    }

    /**
     * The bullet part of `tick`: the bullets advance, and the bricks the ball
     * hit and those the bullets strike leave the level.
     */
    method FinishBullets(ballHits: set<Brick>) returns (ghost struck: set<Brick>)
      requires Valid()
      modifies this`level, this`bullets
      ensures Valid()
      ensures struck <= old(level.blocks)
      ensures level == old(level).(blocks := old(level.blocks) - (ballHits + struck))
      ensures bullets == KeptBullets(old(bullets), old(level.blocks), frame)
      ensures struck == StruckBricks(old(bullets), old(level.blocks))
      ensures State() == BulletPhase(old(State()), size, ballHits)
    {
      var kept, bulletHits := AdvanceBullets(bullets, level.blocks, frame);
      StruckWithin(bullets, level.blocks);
      struck := bulletHits;
      level := level.(blocks := level.blocks - (ballHits + bulletHits));
      bullets := kept;
    }

    /**
     * One frame of a game in play: the six phases in order, as `PlayFrame`
     * describes them; `at` is the brick a bonus may spawn at.
     */
    method Play(turnRate: int, flight: Offset, spawn: bool, pick: int)
      returns (ghost hits: set<Brick>, ghost struck: set<Brick>, ghost at: Brick)
      requires Valid()
      requires 0 <= pick < |Table|
      modifies this`lives, this`scores, this`currentLevel, this`level, this`bonuses, this`bullets, ship, ball
      ensures Valid()
      ensures hits != {} ==> at in hits
      ensures var p := PlayFrame(old(State()), size, levels, turnRate, flight, spawn, pick, at);
              State() == p.state && hits == p.hits && struck == p.struck
    {
      MoveShipAndBall(turnRate, flight);
      DropBall();
      ClearLevel();
      var ballHits: set<Brick>;
      ballHits, at := BallStrikes(spawn, pick);
      ProcessBonuses();
      struck := FinishBullets(ballHits);
      hits := ballHits;
    }

    /**
     * `tick`: a finished game does not change; a game with no lives left
     * becomes finished and nothing else changes; any other game plays one
     * frame.
     */
    method Tick(turnRate: int, flight: Offset, spawn: bool, pick: int)
      returns (ghost hits: set<Brick>, ghost struck: set<Brick>, ghost at: Brick)
      requires Valid()
      requires 0 <= pick < |Table|
      modifies this, ship, ball
      ensures Valid()
      ensures hits != {} ==> at in hits
      ensures var p := TickFrame(old(State()), size, levels, turnRate, flight, spawn, pick, at);
              State() == p.state && hits == p.hits && struck == p.struck
      ensures scores >= old(scores)
      ensures old(gameover) ==> unchanged(this, ship, ball)
      ensures !old(gameover) && old(lives) == 0 ==>
                gameover && unchanged(ship, ball) &&
                unchanged(this`lives, this`currentLevel, this`scores, this`level, this`bonuses, this`bullets)
      ensures !old(gameover) && old(lives) != 0 ==>
                var cleared := old(level.blocks) == {};
                var pool := LevelPool(old(State()), levels);
                !gameover &&
                currentLevel == (if cleared then old(currentLevel) + 1 else old(currentLevel)) &&
                scores == old(scores) + (if cleared then 1000 * old(currentLevel) else 0) + 30 * |hits| &&
                hits <= pool && struck <= pool &&
                level.blocks == pool - (hits + struck)
    {
      ghost var w := State();
      if gameover {
        return {}, {}, NewBrick(0, 0);
      }
      if lives == 0 {
        gameover := true;
        return {}, {}, NewBrick(0, 0);
      }
      hits, struck, at := Play(turnRate, flight, spawn, pick);
      PreparedState(w, size, levels, turnRate, flight);
      PlayBricks(w, size, levels, turnRate, flight, spawn, pick, at, at);
      PlayCounters(w, size, levels, turnRate, flight, spawn, pick, at);
    }
  }
}
