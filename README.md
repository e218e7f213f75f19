# Ghostly Potion Chase — a verified model of the game simulation

This project models the simulation layer of a small single-screen arcade
game. The player walks left and right along the bottom of an 800 × 600 arena,
catches potions that fall from above and fights the ghosts that wander in two
home areas. A round lasts 30 seconds. A session moves from the menu to a
game in progress, then to a win or a loss, and back to the menu.

The model follows the structure of `game.py`:

- `geometry.dfy` (module `Geometry`): the arena constants, integer
  rectangles for the ghosts' home areas and the menu buttons, the 48 × 48
  collision boxes centred on an entity, the strict overlap test the
  collision checks use, and the `max(lo, min(hi, v))` clamp.
- `animation.dfy` (module `Animation`): the frame timing every sprite
  shares. It is an `Animator` value, and `Advance` is one call of
  `update_animation`.
- `entities.dfy` (module `Entities`): the player and the ghosts are
  classes whose `Update` methods change their fields in place. Each method
  is proved equal to a pure step function (`StepPlayer`, `StepGhost`) on a
  value snapshot of the fields (`View()`). Potions are values (see
  "Left out").
- `scoring.dfy` (module `Scoring`): the potion pass and the ghost pass of
  a tick as pure functions over the live lists, with the properties of
  each pass.
- `game.dfy` (module `Game`): the `Session` class holding the module-level
  state of the program: game state, audio flags, player, ghost and potion
  lists, score, countdown and spawn accumulator. It holds `Reset`, the tick
  `Update` and the three input handlers. The passes walk a copy of the list
  and remove entries from the live list, as the program does.

The random draws of the program are parameters with range preconditions:
`GhostSpawn` (speed 2 or 3, one of the four moving directions, countdown in
[0.8, 2.0]), `Turn` (any of the five directions, countdown in [0.8, 2.0]),
and a potion's column in [50, 750] and speed in [2, 4]. Timers, `dt` and the
potions' vertical positions are exact `real`s.

Behaviours of the program that the model keeps as written:

- A potion spawns only once the accumulator strictly exceeds one second, so
  a single one-second tick from a reset spawns nothing (`Spawned`).
- A new potion is added before the potion pass and falls and is tested in
  the same tick.
- A ghost always gets the walking sheet, even when it stands still. The
  program compares a tuple with a list, which is never equal.
- The frame count is fixed from the idle sheet when an entity is created
  and is not recomputed when the sheet changes. A sheet narrower than one
  frame would make the program divide by zero, so the constructors require
  a width of at least one frame.
- On a tick where the player is caught, the win check is skipped even when
  the countdown has run out.

## Model

| member | source | states |
|---|---|---|
| `Geometry.CenteredBox` | game.py:35-36 | the box is 48 × 48 and centred on the entity's position |
| `Geometry.CenteredOverlap` | game.py:168 | two entity boxes overlap under `Overlaps` (the strict test of `colliderect`) exactly when their centres are less than 48 apart on both axes |
| `Geometry.OverlapsSymmetric` | game.py:177 | the overlap test does not depend on which box asks, so potion-vs-player and player-vs-ghost are the same test |
| `Geometry.Clamp` | game.py:54 | the result lies in [lo, hi] when lo ≤ hi, equals the value when it is already inside, and is the nearer bound otherwise |
| `Animation.NewAnimator` | game.py:20-22 | a new sprite starts at frame 0 with nothing accumulated, with as many frames as whole 128-pixel frames fit the sheet |
| `Animation.Advance` | game.py:24-28 | the frame index stays in [0, frame_count); the accumulator is reduced by the speed exactly when it has reached it, and then and only then the frame moves one step round the cycle |
| `Animation.ElapsedStaysBelowSpeed` | game.py:24-28 | with steps no longer than one frame, the accumulator stays in [0, speed) |
| `Animation.AdvanceMany` | game.py:24-28 | any number of updates keep the frame index in range and the frame count and speed unchanged |
| `Animation.GatheredIsProduct` | game.py:25 | n updates of dt gather n · dt seconds |
| `Animation.GatheredGrows` | game.py:25 | with dt ≥ 0, more updates never gather less time |
| `Animation.AccumulatesBelowSpeed` | game.py:24-28 | while the gathered time stays below the speed, updates only add to the accumulator and the frame stays put |
| `Animation.OneFrameAfterSpeedReached` | game.py:24-28 | with a fixed dt, the frame stays put until the first update whose gathered time reaches the speed, which advances it by exactly one and leaves the excess in the accumulator |
| `Entities.PlayerSheet` | game.py:62-68 | an attack sheet exactly while attacking, a walk sheet exactly while moving and not attacking, and a mirrored sheet exactly when facing left |
| `Entities.StepPlayer` | game.py:52-76 | x stays in [32, 768] and moves by direction · 6 when that stays inside; y and direction are kept; facing follows the sign of a non-zero direction and is kept at 0; the sheet is chosen before the attack timer runs; an update never starts an attack and ends one exactly when the decremented timer is ≤ 0 |
| `Entities.Attacked` | game.py:81-85 | after a request the player attacks; an attack already under way is left exactly as it was; a new one runs for 0.28 s from frame 0; position, facing, sheet and accumulator are kept |
| `Entities.AttackedIdempotent` | game.py:81-85 | requesting an attack twice is the same as requesting it once |
| `Entities.Player.constructor` | game.py:39-50 | a new player stands at the given position facing right, not attacking, on the idle sheet |
| `Entities.Player.Update` | game.py:52-76 | the new fields are `StepPlayer` of the old ones |
| `Entities.Player.StartAttack` | game.py:81-85 | the new fields are `Attacked` of the old ones |
| `Entities.StepGhost` | game.py:97-111 | the direction and countdown change only when the countdown has dropped to ≤ 0, and then take the random draw, which lies in [0.8, 2.0]; the ghost moves by direction · speed, clamped to its home area shrunk by 32; with an area at least 64 wide and high it stays inside; the sheet is always the walking one |
| `Entities.StepGhostMany` | game.py:97-111 | any number of updates keep the ghost's area, speed and a valid animator |
| `Entities.GhostStaysHome` | game.py:103-104 | a ghost that starts inside its shrunk home area stays there however many updates it takes |
| `Entities.Ghost.constructor` | game.py:90-95 | a new ghost holds its seat, its area and the random speed, direction and countdown, on the idle sheet |
| `Entities.Ghost.Update` | game.py:97-111 | the new fields are `StepGhost` of the old ones |
| `Entities.NewPotion` | game.py:117-122 | a new potion is at height -50, above the top edge, in the column and at the speed drawn |
| `Entities.Fall` | game.py:124-125 | a potion keeps its column and speed and moves down by exactly its speed, so by at least 2 per update |
| `Entities.FallMany` | game.py:124-125 | any number of updates keep a potion's column and speed |
| `Entities.PotionSinks` | game.py:124-125 | after n updates a potion is at least 2n lower, so one never caught passes the bottom edge |
| `Scoring.CollectPotions` | game.py:166-173 | the pass never keeps or catches more potions than it was given |
| `Scoring.CollectAppend` | game.py:166-173 | the pass over a list is the pass over its prefix followed by the decision for its last potion |
| `Scoring.KeptExactly` | game.py:166-173 | the potions that stay are exactly the fallen potions that neither touch the player nor lie below the bottom edge |
| `Scoring.PickedCountsCaught` | game.py:168-170 | the catch count is the number of potions whose box (`Potion.Box`, game.py:130-131) touches the player after falling, one point each |
| `Scoring.KeptValid` | game.py:166-173 | the potions that stay keep their column and speed ranges |
| `Scoring.RemoveFirst` | game.py:179 | removing a present element shortens the list by one |
| `Scoring.RemoveFirstCounts` | game.py:179 | removal takes away exactly one occurrence of the element and nothing else |
| `Scoring.ResolveGhosts` | game.py:176-185 | the pass keeps only ghosts from its input and wins points in multiples of 5 |
| `Scoring.ArmedFight` | game.py:176-181 | an attacking player is never caught; the ghosts kept are exactly those not touching the player, and the points are 5 per touching ghost |
| `Scoring.UnarmedFight` | game.py:176-185 | a player who is not attacking removes no ghost, wins no points, and is caught exactly when some ghost touches them |
| `Scoring.LostOnlyUnarmed` | game.py:182-185 | the pass is lost exactly when the player is not attacking and some ghost touches them, and then every ghost stays and no points are won |
| `Scoring.NeverLostArmed` | game.py:178-181 | an attacking player is never caught |
| `Scoring.GhostRemovedIffDefeated` | game.py:177-180 | a ghost leaves the list exactly when it touches an attacking player |
| `Scoring.FightKeptDistinct` | game.py:176-179 | the ghosts that survive the pass are listed once each |
| `Game.SeatsAreHome` | game.py:137-144 | every ghost seat lies inside its home area shrunk by 32, and each area is at least 64 wide and high |
| `Game.SeatedGhost` | game.py:141-144 | a seated ghost starts inside its shrunk home area, at frame 0, on the idle sheet |
| `Game.SeatingIgnoresSpawn` | game.py:133-147 | two resets seat the same ghosts and differ only in each ghost's random speed, direction and countdown |
| `Game.SeatGhosts` | game.py:140-144 | four new, distinct ghosts, one per seat in order, each valid and at home |
| `Game.Spawned` | game.py:162-164 | one potion exactly when the accumulator strictly exceeds one second, above the top edge in the column and at the speed drawn, and none otherwise |
| `Game.ButtonAt` | game.py:228-231 | the button under a point is the one whose rectangle contains it under `Rect.Contains` (half-open, as `collidepoint`), and none when no rectangle does |
| `Game.KeyState` | game.py:211-221 | a key changes the state exactly when it is Return after a game has ended, and then to the menu |
| `Game.PressKey` | game.py:213-219 | during a game the arrows set the direction to -1 or 1, Space requests an attack, and other keys leave the player alone |
| `Game.ClickState` | game.py:227-235 | a click changes the state exactly when it is on Start while on the menu, and then to a game in progress |
| `Game.FightGhosts` | game.py:176-185 | walking a copy of the ghost list and removing defeated ghosts from the live list gives the list, points and outcome of `ResolveGhosts` |
| `Game.Session.constructor` | game.py:7-12 | the program starts on the menu with music and sounds on, no player, no ghosts or potions, score 0, timer 30 and accumulator 0 |
| `Game.Session.Reset` | game.py:133-147 | the player stands at (400, 550) facing right, idle and not attacking; the four ghosts sit at (120,150), (250,300) in (50,50,300,500) and (500,150), (650,350) in (450,50,300,500); no potions, score 0, timer 30, accumulator 0; game state and audio settings are kept |
| `Game.Session.StepGhosts` | game.py:159 | every ghost takes its own `StepGhost` and all stay at home |
| `Game.Session.StepEntities` | game.py:158-159 | the player takes `StepPlayer`, then every ghost takes `StepGhost` |
| `Game.Session.StepTimersAndEntities` | game.py:155-164 | the timer drops by dt, the accumulator fills and is emptied when a potion is spawned, the entities step, and the spawned potion goes to the end of the list |
| `Game.Session.PotionPass` | game.py:166-173 | walking a copy of the potion list leaves the potions and the score that `CollectPotions` gives |
| `Game.Session.GhostPass` | game.py:176-185 | walking a copy of the ghost list leaves the ghosts, the score and the outcome of `ResolveGhosts`; a caught player loses |
| `Game.Session.Resolve` | game.py:166-188 | the potion pass, then the ghost pass; a caught player loses at once, and otherwise the game is won exactly when the timer is ≤ 0 |
| `Game.Session.Tick` | game.py:155-188 | a tick of a game in progress: the timer, accumulator, entity steps, spawn and both passes, in the program's order |
| `Game.Session.Update` | game.py:150-188 | outside a game in progress nothing changes; in a game the tick's effects hold; the score never goes down and the state only takes a move of the state machine |
| `Game.Session.OnKeyDown` | game.py:211-221 | the state becomes `KeyState` of the key, and during a game the player becomes `PressKey` of the key |
| `Game.Session.OnKeyUp` | game.py:223 | whatever the key and state, the player's direction becomes 0 and nothing else changes; a player must exist |
| `Game.Session.OnMouseDown` | game.py:225-240 | the state becomes `ClickState` of the button clicked; on the menu Start resets the round, Music and Sounds flip their flag, and Exit is reported; anything else changes nothing |

## Left out

- Rendering: `draw`, `draw_frame` and the entities' `draw` methods only blit
  images and text and change no state.
- Audio: the sound effects and `start_music` are calls into the audio
  library. Only the `music_on` and `sounds_on` flags are modelled.
- `exit()` ends the process. `OnMouseDown` reports the request in its
  `exit` result instead.
- Image lookup: sheets are the `Sheet` enumeration. The idle sheets'
  pixel widths are constructor parameters that fix the frame counts.
- The `random` module: every draw is a caller-supplied parameter with a
  precondition on its range. The model does not state the draws'
  distribution.
- pygame's `Rect`: the overlap test is the strict interval overlap that
  `colliderect` implements. The truncation of fractional coordinates to
  integers is not modelled, so a falling potion's box uses its exact
  position.
- Floating point: timers, `dt` and potion speeds are exact reals, so no
  rounding is modelled.
- Potions are values in the session's list, not objects that change in
  place. No other reference to a potion exists, so updating the list entry
  gives the same result, but aliasing of potion objects is not captured.
- `NewAnimator`, `Player.constructor`, `Ghost.constructor`: require an idle
  sheet at least one 128-pixel frame wide. The program accepts a narrower
  sheet and only fails at the first frame advance, dividing by a zero frame
  count (game.py:28); that failure is not modelled.
- The player's direction is one integer. The program keeps a two-element
  list whose second element is never set.
