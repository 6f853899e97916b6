# Arkanoid game logic in Dafny

A model of the game logic of a small Arkanoid clone: a paddle (the `Ship`)
at the bottom of the field, a `Ball` it launches, levels of bricks, bullets
the paddle fires, and bonuses that fall from destroyed bricks and act on
the game when the paddle catches them. The game advances one `tick` at a
time.

The model has five modules:

- `Geometry` (core.py): the integer rectangle `Frame` with its edges, its
  middle, its boundary-inclusive intersection test and its value-returning
  `resize`/`relocate`/`transform`; the ball states; `compare` and `sign`.
- `Entities` (entities.py, settings.py): the configuration constants, the
  axis-aligned movement step, the `Ship` and `Ball` classes whose fields are
  updated in place, and the `Bullet` and `Brick` values.
- `Levels` (level.py): the three brick layouts built by nested loops
  (`GetLevels`), proved equal to a recursive description (`Catalog`). That
  description is used to prove which grid cells hold a brick, that no two
  bricks share an origin, and that the levels have 70, 61 and 100 bricks.
- `Bonuses` (bonuses.py): the seven bonus kinds, the `BONUSES` table and the
  random pick from it, and the falling `Bonus` entity.
- `Game` (game.py): the `GameModel` class and its `tick`.
  - The whole state of a game is also a value, `GameState`. One frame is
    the pure function `TickFrame`, built from one function per phase: move,
    drop, clear, ball strikes, bonuses, bullets.
  - `Tick` and each phase method end in the state their function gives.
    Lemmas about `PlayFrame` state what a frame does: which bricks go, what
    it scores, which bullets and bonuses stay, and what happens to lives.
  - The class invariant `Valid` is required and ensured by `Tick`, `Play`,
    `Shooting`, `TryGetNextLevel` and the phases `DropBall`, `ClearLevel`,
    `BallStrikes`, `ProcessBonuses` and `FinishBullets`.
  - The bonus loop is specified by the fold `BonusPass` and the bullet loop
    by `KeptBullets` and `StruckBricks`. Lemmas give their meaning: what
    stays, what is struck, what happens to lives and ammunition.

The ball's direction is an angle handled with floating-point trigonometry.
The model replaces it with the displacement it produces: `flight` is an
input of `Tick`. The two random draws of a tick are inputs too: `spawn`
(whether `random.random() > 0.75`) and `pick` (the index `randint` draws).

In these places the model follows the code:

- `expand` and `narrow` keep the paddle's right edge fixed while its width
  is even.
- `release_ball` frees the ball whatever its state.
- A game has no won state. Once the level number passes 3, every tick adds
  1000 times the level number to the score and increments it.
- A game with no lives left ends on the next tick.
- Bonuses and bullets are tested against the field before they move. A
  bullet that was off the field can still strike a brick.
- Bricks struck by bullets score nothing.
- At most one bonus spawns per tick, at one of the bricks the ball hit.

## Model

| member | source | states |
|---|---|---|
| Geometry.TruncHalf | core.py:26 | `int(n / 2)` truncates toward zero: `n - 2r` is 0 or 1 for non-negative `n` and 0 or -1 for non-positive `n` |
| Geometry.Frame.Middle | core.py:24-26 | the middle lies between top and bottom, half-way, rounded towards the bottom |
| Geometry.Frame.WithLocation | core.py:40-42 | the location setter moves the origin to the given point and keeps the size |
| Geometry.Frame.IntersectsWith | core.py:44-46 | separated projections never intersect; for non-negative sizes, intersection holds iff both closed intervals overlap |
| Geometry.IntersectsSymmetric | core.py:44-46 | intersection is symmetric |
| Geometry.ContainedIntersects | core.py:44-46 | a non-negative rectangle intersects any rectangle containing it, both ways |
| Geometry.IntersectionIsBoundaryInclusive | core.py:44-46 | rectangles touching at an edge or corner intersect; a one-unit gap on either axis separates them |
| Geometry.IntersectionExamples | tests/test_logic.py:9-32 | the six intersection cases of the unit test |
| Geometry.ResizeKeepsOrigin | core.py:48-50 | `Frame.Resize`: `resize` keeps the origin and adds exactly the deltas to the size |
| Geometry.RelocateRoundTrip | core.py:52-54 | `Frame.Relocate`: `relocate` keeps the size, moves the origin by the deltas, and relocating back restores the frame |
| Geometry.TransformMovesAndResizes | core.py:56-57 | `Frame.Transform`: `transform` is the componentwise sum; resizing then relocating gives the same frame |
| Geometry.ResizeRelocateExamples | tests/test_logic.py:34-42 | the resizing and relocation cases of the unit tests |
| Geometry.TransformExample | tests/test_logic.py:44-49 | the transformation case of the unit test |
| Geometry.Compare | core.py:70-74 | -1, 0 or 1 exactly when below, equal or above |
| Geometry.CompareAntisymmetric | core.py:70-74 | swapping the arguments negates the result |
| Geometry.CompareExamples | tests/test_logic.py:51-54 | the comparison cases of the unit test |
| Geometry.Sign | core.py:77-80 | -1, 0 or 1 exactly when the number is negative, zero or positive |
| Geometry.SignExamples | tests/test_logic.py:56-59 | the sign cases of the unit test |
| Entities.Trunc | entities.py:26-27 | `int()` of a float truncates toward zero: within one unit of the value, on the side of zero |
| Entities.StepIsExact | entities.py:25-28 | `Step`: with an integral velocity, a move along an axis is exactly velocity times turn rate on that axis and zero on the other |
| Entities.Widened | entities.py:37-39 | `expand` keeps the right edge, top and height, and adds half the width; an even width grows to three halves |
| Entities.Narrowed | entities.py:41-43 | `narrow` keeps the right edge, top and height, and removes half the width; an even width is halved |
| Entities.Ship.constructor | entities.py:32-35 | a new paddle is 190x30 at (x, y), with speed 30 and no ammunition |
| Entities.Ship.Restart | game.py:141-142 | re-initialising the paddle yields exactly the constructor's state |
| Entities.Ship.Move | entities.py:25-28 | the paddle moves horizontally by its step; y and size are kept |
| Entities.Ship.Expand | entities.py:37-39 | the new frame is `Widened` of the old |
| Entities.Ship.Narrow | entities.py:41-43 | the new frame is `Narrowed` of the old |
| Entities.Ship.GetAmmo | entities.py:45-46 | the ammunition grows by exactly `count` |
| Entities.Ball.constructor | entities.py:50-53 | a new ball is 32x32 at (x, y), speed 15, Free |
| Entities.Ball.Restart | game.py:144-147 | re-initialising the ball yields exactly the constructor's state |
| Entities.Ball.StickToShip | entities.py:55-56 | the ball becomes Caught |
| Entities.Ball.ChangeState | entities.py:58-59 | the ball takes the given state |
| Entities.Ball.Move | entities.py:61-65 | a Caught ball shifts horizontally by exactly the given delta; any other ball flies by its flight displacement |
| Entities.Ball.Accelerate | entities.py:67-68 | the speed becomes 1.5 times the configured speed, whatever it was |
| Entities.Bullet.Moved | entities.py:77-80 | a bullet rises 20 units per tick and keeps its x and size |
| Entities.ShipMovementExample | tests/test_logic.py:61-73 | the paddle positions of the movement unit test |
| Entities.BallMovementExample | tests/test_logic.py:75-84 | the ball position of the movement unit test |
| Levels.GetLevels | level.py:11-46 | the nested loops build exactly the `Catalog` of the three layouts |
| Levels.CreateBlockInjective | level.py:53-57 | `CreateBlock` and `GetBlockLocation`: distinct grid cells give distinct bricks |
| Levels.CellOfCreateBlock | level.py:53-57 | `CreateBlock`: a cell can be recovered from its brick |
| Levels.RowMembership | level.py:22-25 | a cell's brick is in a row prefix iff the cell is in that row, in the prefix and in the pattern |
| Levels.RowElements | level.py:22-25 | every brick of a row prefix is the brick of a pattern cell of that row |
| Levels.RowsMembership | level.py:22-25 | a cell's brick is among the first m rows iff the cell is a pattern cell of those rows |
| Levels.RowsElements | level.py:22-25 | every brick of the first m rows is the brick of a pattern cell of those rows |
| Levels.LayoutMembership | level.py:17-45 | the brick of cell (i, j) belongs to a level iff the cell is in the level's pattern |
| Levels.LayoutElements | level.py:17-45 | every brick of a level is a 90x20 brick at (left + 90 j, top + 20 i) for a pattern cell (i, j) |
| Levels.RowSize | level.py:22-25 | a row prefix holds as many bricks as it has pattern cells |
| Levels.RowsRowDisjoint | level.py:22-25 | a new row shares no brick with the rows before it |
| Levels.RowsSizeStep | level.py:22-25 | adding a row adds exactly its pattern cells to the brick count |
| Levels.RowsSize | level.py:22-25 | the first m rows hold as many bricks as they have pattern cells |
| Levels.RowCellsLevel1 | level.py:23-24 | level 1 rows hold 10 cells when even and 2 when odd |
| Levels.RowCellsLevel2 | level.py:33-34 | level 2 rows take the columns of the row's own parity: 6 or 5 of 11 |
| Levels.RowCellsLevel3 | level.py:42-43 | level 3 rows are full |
| Levels.RowsCellsLevel1 | level.py:22-25 | closed form of the level 1 cell count over the first m rows |
| Levels.RowsCellsLevel2 | level.py:32-34 | closed form of the level 2 cell count over the first m rows |
| Levels.RowsCellsLevel3 | level.py:41-43 | closed form of the level 3 cell count over the first m rows |
| Levels.PatternSize | level.py:17-45 | the patterns have 70, 61 and 100 cells |
| Levels.LayoutSize | level.py:17-45 | each level has as many bricks as its pattern has cells |
| Levels.CatalogKeys | level.py:11-46 | the catalog holds levels 1, 2 and 3, each under its own number |
| Levels.CatalogShape | level.py:11-46 | levels 1, 2 and 3 have 70, 61 and 100 bricks, on rows 20 units apart below their top |
| Bonuses.IndexOf | bonuses.py:76-77 | only the base class has no place in the table |
| Bonuses.GetRandomBonus | bonuses.py:15-17 | the pick is always one of the seven subclasses, never the base class |
| Bonuses.TableShape | bonuses.py:76-77 | the table lists each of the seven subclasses exactly once, at its index |
| Bonuses.RandomBonusRoundTrip | bonuses.py:15-17 | drawing an index and asking for the kind's index round-trips, both ways |
| Bonuses.Bonus.Moved | bonuses.py:8-10 | a bonus falls by exactly the downward step at the bonus speed and keeps its kind |
| Bonuses.NewBonusFalls | bonuses.py:8-10 | a new bonus is a 25x25 square at (x, y) that falls 15 units per tick |
| Bonuses.NewBonusAsWrittenFails | bonuses.py:8-10 | as written, creating any bonus fails on the `BONUS_SIZE` lookup; the lower-case names exist |
| Game.Clamp | game.py:150-154 | `min(max(low, x), high)` lies in a non-empty range, is `x` inside it, and is the nearer bound outside it |
| Game.StartPlacement | game.py:137-148 | after `reset` the ball rests on the paddle's top, centred on it; the deadly height is H - 15 and lies below the ball's middle; both lie within a field at least as wide as the paddle |
| Game.PlainBonusDoesNothing | bonuses.py:12-13 | the base class's activation changes nothing |
| Game.EffectsAreLocal | bonuses.py:20-57 | `Effect`: each paddle or ball bonus changes only its one attribute, as its `activate` says |
| Game.FastBallIdempotent | bonuses.py:52-57 | a second FastBall has no further effect; the speed becomes 22.5 |
| Game.LivesEffects | bonuses.py:60-73 | Life adds exactly one life, Death takes one and resets the round, other kinds keep the lives |
| Game.EffectKeepsAmmoEven | bonuses.py:36-41 | every effect keeps the ammunition non-negative and even |
| Game.ActivationAsWrittenFails | bonuses.py:60-73 | as written, activation fails exactly for Life and Death |
| Game.BonusPassUnfold | game.py:103-107 | one more bonus in the loop is one more `BonusStep` |
| Game.BonusPassKept | game.py:101-109 | every bonus that stays is a fallen copy of a pending bonus that was on the field and, fallen, did not touch the paddle as the bonuses before it left it; no more stay than were pending |
| Game.BonusPassKeepsPaddle | game.py:103-107 | when no bonus of the pass is Decrease, Expand or Death, the paddle stays as it is and no reset happens |
| Game.BonusPassKeptExactly | game.py:101-109 | when no bonus moves or resizes the paddle, a bonus stays iff it overlapped the field and, fallen, does not touch the paddle |
| Game.BonusPassKeepsAmmoEven | game.py:101-109 | the bonus loop keeps the ammunition non-negative and even |
| Game.TouchingCount | game.py:103-107 | `Touching`: each kind is listed exactly as many times as there are pending bonuses of that kind that, fallen, touch the paddle |
| Game.TouchingFrom | game.py:105-107 | `Touching`: every kind it lists is that of a pending bonus that, fallen, touches the paddle |
| Game.BonusPassActivates | game.py:101-109 | when no bonus moves or resizes the paddle, the loop's session is `Effect` applied in order over the kinds of the bonuses that, fallen, touch the paddle |
| Game.ActivatedSession | bonuses.py:20-67 | activating bonuses that leave the paddle alone adds one life per Life bonus and 12 rounds per Bullet bonus, makes the ball Fiery or fast iff such a bonus is among them or it already was, and changes nothing else |
| Game.BonusPassSession | game.py:101-109 | when no bonus moves or resizes the paddle, each caught Life bonus adds exactly one life and each caught Bullet bonus 12 rounds; the ball is Fiery or fast iff such a bonus was caught or it already was; paddle and ball frame stay |
| Game.BonusPassLives | game.py:101-109 | without Life or Death bonuses the loop changes no lives and does not reset |
| Game.StruckBricksExactly | game.py:111-120 | a brick is struck iff it is in the level and some moved bullet touches it, including bullets that were off the field |
| Game.StruckWithin | game.py:113-120 | only bricks of the level are struck |
| Game.KeptBulletsExactly | game.py:111-121 | the bullets that stay are exactly the moved copies of those that were on the field and, moved, touch no brick |
| Game.AdvanceBullets | game.py:111-121 | the bullet loop yields `KeptBullets` and `StruckBricks` |
| Game.HitBricks | game.py:115-117 | the inner loop collects exactly the bricks the bullet touches |
| Game.PreparedState | game.py:59-71 | after the move, drop and clear phases: the level number, the score and the level as the clear phase sets them; one life fewer after a drop; after a drop or a level advance, the ball back on the paddle and no bonuses or bullets |
| Game.PlayBricks | game.py:73-120 | a frame removes exactly the bricks the ball hit plus those the advancing bullets struck. A brick is hit iff it touches the ball at the strike. It is struck iff some advancing bullet, moved, touches it |
| Game.PlayBullets | game.py:111-121 | the bullets after a frame are exactly the advancing bullets that were on the field and, moved, touch no brick |
| Game.PlayCounters | game.py:69-99 | a frame's score is 1000 per level number when the level was empty, plus 30 per brick the ball hit; bullet hits score nothing; the level number goes up iff the level was empty |
| Game.PlayBonuses | game.py:93-109 | the falling bonuses are those left plus the one spawned at the chosen hit brick; their pass sets the session and the bonuses; bullets advance unless a Death bonus was caught |
| Game.PlayLives | game.py:65-67 | without Life or Death bonuses, a frame costs exactly one life when the ball drops and none otherwise, and every remaining bullet advances |
| Game.PlayCatches | game.py:93-109 | when no bonus of a frame moves or resizes the paddle, the frame's session is the cleared one plus one life per caught Life bonus and 12 rounds per caught Bullet bonus, with the ball Fiery or fast iff such a bonus was caught or it already was |
| Game.TickCases | game.py:51-57 | a finished game does not change; a game without lives only becomes finished; otherwise one frame is played; the score never drops |
| Game.GameModel.constructor | game.py:11-28 | a new game has 3 lives, score 0, level 1 of the catalog loaded, no bullets or bonuses, the start placement, and its invariant |
| Game.GameModel.ReleaseBall | game.py:40-41 | the ball becomes Free whatever its state; frame and speed are kept |
| Game.GameModel.Shooting | game.py:43-49 | with ammunition, two rounds are spent and bullets appear at the paddle's top corners; without, nothing changes |
| Game.GameModel.Reset | game.py:137-148 | no bonuses or bullets; paddle and ball in the start placement, ball Caught; lives kept |
| Game.GameModel.NormalizeShipLocation | game.py:150-154 | the paddle's x is clamped to [0, field right - width]; y and size are kept |
| Game.GameModel.TryGetNextLevel | game.py:129-135 | the level number goes up by one; the result is true iff a level with that number exists, which is then loaded with a reset round; otherwise nothing else changes |
| Game.GameModel.ActivateBonus | bonuses.py:12-73 | the new game state is `Effect` of the old; a Death bonus also clears bonuses and bullets |
| Game.GameModel.ProcessBonuses | game.py:101-109 | the state is the result of `BonusPass`; a Death bonus leaves no bonuses and no bullets; the new state is `BonusPhase` of the old |
| Game.GameModel.MoveShipAndBall | game.py:59-62 | the paddle steps and is clamped; a Caught ball follows by the paddle's actual displacement, any other ball flies; the new state is `MovePhase` of the old |
| Game.GameModel.DropBall | game.py:65-67 | a ball whose middle is below the deadly height costs one life and resets the round; otherwise nothing changes; the new state is `DropPhase` of the old |
| Game.GameModel.ClearLevel | game.py:69-71 | an empty level scores 1000 times its number and the number goes up; if that level exists it is loaded with a reset round, otherwise the paddle, ball, bonuses and bullets stay; a non-empty level changes nothing; the new state is `ClearPhase` of the old |
| Game.GameModel.BallStrikes | game.py:73-99 | the bricks the ball touches score 30 each; with `spawn` one bonus of the picked kind appears at the origin of the chosen one, `at`; the new state is `StrikePhase` of the old |
| Game.GameModel.FinishBullets | game.py:111-121 | the bricks hit by the ball and those struck by bullets leave the level; the bullets become `KeptBullets`; the new state is `BulletPhase` of the old |
| Game.GameModel.Play | game.py:59-121 | the new state, the bricks the ball hit and those the bullets struck are exactly `PlayFrame` of the old state; the chosen brick is one the ball hit |
| Game.GameModel.Tick | game.py:51-121 | the new state and the hit and struck bricks are exactly `TickFrame` of the old state. A finished game is unchanged. A game without lives becomes finished. Otherwise the level number, the score and the remaining bricks follow the played frame. The score never drops and the invariant holds |

## Left out

- The ball's reflections are not modelled: off the walls (game.py:156-162), off a brick (game.py:77-91) and off the paddle (game.py:123-127). They change only the ball's direction, which is floating-point trigonometry. The direction's effect enters the model as the `flight` displacement of `Tick`.
- `random.random()` and `random.randint` are not modelled as randomness. Their outcomes are the inputs `spawn` and `pick`.
- The user interface (arkanoid.py), `get_image` and the `get_entities` generator are not modelled. They only read the state, for drawing.
- Entities.Widened: the source moves x by the float `width / 2`. The model uses the truncated half, which differs when the width is odd. A width of 285 occurs after one `expand` of the 190-unit paddle.
- Levels.GridLeft: the source's grid left edge is the float `(width - 900) / 2`. The model truncates it, which differs when the field width is odd.
- Game.DeadlyHeight: the source's deadly height is a float. It is integral because the paddle height is even.
- Game.GameModel.Reset: the source creates new `Ship` and `Ball` objects. The model re-initialises the same two objects to the constructor's state. Nothing in the game holds on to the old ones, so the two are indistinguishable.
- In the source, the active level is the same object as its entry in the level dictionary. The model keeps the active level as a separate value, so the catalog keeps its full layouts.
- Python sets are modelled in two ways. The bullets and bonuses are sequences processed in order; the source iterates sets of objects in an unspecified order. The brick chosen by `next(iter(...))` is an arbitrary member.
- Bullets and bonuses are values. Two with the same frame count once in a Python set only if they are the same object.
- Geometry.Sign: the model takes a real number and leaves out NaN and negative zero.
- Entities.Narrowed: the source moves x by the float `width / 2`. The model uses the truncated half, which differs when the width is odd. A width of 95 occurs after one `narrow` of the 190-unit paddle; a second `narrow` then shifts x by 47.5, so the right edge moves by half a unit. The model keeps the right edge.
- Game.GameModel.Tick: does not constrain lives to stay non-negative. A drop and a Death bonus in one tick take two lives, and two Death bonuses do the same. A game that reaches negative lives never ends, because the end test is `lives == 0`.
- The brick colour (always None) and the image paths are not modelled.

## Findings

| source | as written | input that shows it | evidently intended | confidence | as-written member | corrected member |
|---|---|---|---|---|---|---|
| bonuses.py:8-10 | `Bonus.__init__` reads `settings.BONUS_SIZE`, `BONUS_VELOCITY` and `BONUS_DIRECTION`, but settings.py defines only the lower-case names | any bonus, e.g. the one spawned when the ball hits a brick and `random.random()` exceeds 0.75: `AttributeError` on `BONUS_SIZE` | build the bonus from `bonus_size`, `bonus_velocity` and `bonus_direction`: a 25x25 square falling 15 units per tick | not executed | Bonuses.NewBonusAsWrittenFails | Bonuses.NewBonusFalls |
| bonuses.py:60-73 | `LifeBonus.activate` calls `game.player.gain_life()` and `DeathBonus.activate` calls `game.kill_player()`; `GameModel` has neither | the paddle catching a Life or a Death bonus: `AttributeError` on `player` or `kill_player` | Life adds one life; Death takes one life and resets the round | not executed | Game.ActivationAsWrittenFails | Game.LivesEffects |
