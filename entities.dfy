/**
 * The three kinds of entity on the screen. Each is a class whose update
 * method changes its own fields; the new state of the player and of a ghost
 * is specified by a pure step function on a value snapshot of the fields.
 */
module Entities {
  import opened Geometry
  import opened Animation

  /** The sprite sheets an entity can show, in place of the image handles. */
  datatype Sheet =
    | PlayerIdle | PlayerIdleFlipped
    | PlayerWalk | PlayerWalkFlipped
    | PlayerAttack | PlayerAttackFlipped
    | GhostIdle | GhostWalk

  predicate IsPlayerSheet(s: Sheet) { !s.GhostIdle? && !s.GhostWalk? }
  predicate IsAttackSheet(s: Sheet) { s.PlayerAttack? || s.PlayerAttackFlipped? }
  predicate IsWalkSheet(s: Sheet) { s.PlayerWalk? || s.PlayerWalkFlipped? }
  predicate IsFlippedSheet(s: Sheet)
  {
    s.PlayerIdleFlipped? || s.PlayerWalkFlipped? || s.PlayerAttackFlipped?
  }

  /** The player's sheet: an attack sheet while attacking, otherwise a walk
      sheet while moving and an idle sheet when not, each mirrored when the
      player faces left. */
  function PlayerSheet(attacking: bool, facingLeft: bool, moving: bool): (s: Sheet)
    ensures IsPlayerSheet(s)
    ensures IsAttackSheet(s) <==> attacking
    ensures IsWalkSheet(s) <==> !attacking && moving
    ensures IsFlippedSheet(s) <==> facingLeft
  {
    if attacking then
      (if facingLeft then PlayerAttackFlipped else PlayerAttack)
    else if moving then
      (if facingLeft then PlayerWalkFlipped else PlayerWalk)
    else
      (if facingLeft then PlayerIdleFlipped else PlayerIdle)
  }

  /** Distance an entity keeps from the edge of the area it is confined to. */
  const MARGIN: int := 32

  // ---------------------------------------------------------------- player

  const PLAYER_SPEED: int := 6
  /** Length of one attack, in seconds. */
  const ATTACK_TIME: real := 0.28

  /** The player's fields. Only the horizontal component of the direction is
      ever set, so the direction is a single integer. */
  datatype PlayerState = PlayerState(
    x: int, y: int, direction: int, facingLeft: bool,
    attacking: bool, attackTime: real, sheet: Sheet, anim: Animator)

  /** One player update after dt seconds. */
  function StepPlayer(p: PlayerState, dt: real): (r: PlayerState)
    requires p.anim.Valid()
    // horizontal movement only, kept within the arena's side margins
    ensures MARGIN <= r.x <= WIDTH - MARGIN
    ensures (MARGIN <= p.x + p.direction * PLAYER_SPEED <= WIDTH - MARGIN)
        ==> r.x == p.x + p.direction * PLAYER_SPEED
    ensures p.x + p.direction * PLAYER_SPEED < MARGIN ==> r.x == MARGIN
    ensures p.x + p.direction * PLAYER_SPEED > WIDTH - MARGIN ==> r.x == WIDTH - MARGIN
    ensures r.y == p.y && r.direction == p.direction
    // facing follows the sign of a non-zero direction and is kept otherwise
    ensures p.direction != 0 ==> (r.facingLeft <==> p.direction < 0)
    ensures p.direction == 0 ==> r.facingLeft == p.facingLeft
    // the sheet is chosen before the attack timer runs down
    ensures r.sheet == PlayerSheet(p.attacking, r.facingLeft, p.direction != 0)
    ensures IsAttackSheet(r.sheet) <==> p.attacking
    // an update never starts an attack; it ends one whose time has run out
    ensures r.attacking ==> p.attacking
    ensures p.attacking ==> r.attackTime == p.attackTime - dt && (r.attacking <==> r.attackTime > 0.0)
    ensures !p.attacking ==> r.attackTime == p.attackTime
    ensures r.anim == Advance(p.anim, dt)
  {
    var x := Clamp(MARGIN, WIDTH - MARGIN, p.x + p.direction * PLAYER_SPEED);
    var facingLeft := if p.direction < 0 then true else if p.direction > 0 then false else p.facingLeft;
    var sheet := PlayerSheet(p.attacking, facingLeft, p.direction != 0);
    var attackTime := if p.attacking then p.attackTime - dt else p.attackTime;
    var attacking := if p.attacking && attackTime <= 0.0 then false else p.attacking;
    PlayerState(x, p.y, p.direction, facingLeft, attacking, attackTime, sheet, Advance(p.anim, dt))
  }

  /** The player after an attack is requested. */
  function Attacked(p: PlayerState): (r: PlayerState)
    ensures r.attacking
    // an attack already under way is neither restarted nor extended
    ensures p.attacking ==> r == p
    // a new attack runs for ATTACK_TIME from the first frame
    ensures !p.attacking ==> r.attackTime == ATTACK_TIME && r.anim.frameIndex == 0
    ensures r.x == p.x && r.y == p.y && r.direction == p.direction
    ensures r.facingLeft == p.facingLeft && r.sheet == p.sheet
    ensures r.anim.elapsed == p.anim.elapsed && r.anim.frameCount == p.anim.frameCount
    ensures r.anim.speed == p.anim.speed
    ensures p.anim.Valid() ==> r.anim.Valid()
  {
    if p.attacking then p
    else p.(attacking := true, attackTime := ATTACK_TIME, anim := p.anim.(frameIndex := 0))
  }

  /** Requesting an attack twice in a row is the same as requesting it once. */
  lemma AttackedIdempotent(p: PlayerState)
    ensures Attacked(Attacked(p)) == Attacked(p)
  {
  }

  class Player {
    var x: int
    var y: int
    var direction: int
    var facingLeft: bool
    var attacking: bool
    var attackTime: real
    var sheet: Sheet
    var anim: Animator

    function View(): PlayerState
      reads this
    {
      PlayerState(x, y, direction, facingLeft, attacking, attackTime, sheet, anim)
    }

    ghost predicate Valid()
      reads this
    {
      anim.Valid()
    }

    /** A standing player facing right, showing the idle sheet whose width
        gives the frame count. */
    constructor (x: int, y: int, idleWidth: nat)
      requires idleWidth >= FRAME_W
      ensures Valid()
      ensures View() == PlayerState(x, y, 0, false, false, 0.0, PlayerIdle, NewAnimator(idleWidth))
    {
      this.x, this.y := x, y;
      direction, facingLeft := 0, false;
      attacking, attackTime := false, 0.0;
      sheet, anim := PlayerIdle, NewAnimator(idleWidth);
    }

    function Box(): Box
      reads this
    {
      CenteredBox(x as real, y as real)
    }

    method Update(dt: real)
      requires Valid()
      modifies this
      ensures Valid()
      ensures View() == StepPlayer(old(View()), dt)
    {
      x := Clamp(MARGIN, WIDTH - MARGIN, x + direction * PLAYER_SPEED);

      if direction < 0 {
        facingLeft := true;
      } else if direction > 0 {
        facingLeft := false;
      }

      sheet := PlayerSheet(attacking, facingLeft, direction != 0);

      if attacking {
        attackTime := attackTime - dt;
        if attackTime <= 0.0 {
          attacking := false;
        }
      }

      anim := Advance(anim, dt);
    }

    method StartAttack()
      requires Valid()
      modifies this
      ensures Valid()
      ensures View() == Attacked(old(View()))
    {
      if !attacking {
        attacking := true;
        attackTime := ATTACK_TIME;
        anim := anim.(frameIndex := 0);
      }
    }
  }

  // ---------------------------------------------------------------- ghosts

  /** A ghost's movement: the four screen directions (y grows downwards) or
      standing still. */
  datatype Direction = Right | Left | Down | Up | Still

  function DX(d: Direction): int
  {
    match d
    case Right => 1
    case Left => -1
    case _ => 0
  }

  function DY(d: Direction): int
  {
    match d
    case Down => 1
    case Up => -1
    case _ => 0
  }

  const MIN_CHANGE_TIME: real := 0.8
  const MAX_CHANGE_TIME: real := 2.0

  /** The random choices made when a ghost is created: its speed, one of the
      four moving directions, and its first re-direction countdown. */
  datatype GhostSpawn = GhostSpawn(speed: int, direction: Direction, changeTime: real)
  {
    predicate Valid()
    {
      (speed == 2 || speed == 3) && direction != Still
      && MIN_CHANGE_TIME <= changeTime <= MAX_CHANGE_TIME
    }
  }

  /** The random choices made when a ghost's countdown expires: any of the
      five directions, and a new countdown. */
  datatype Turn = Turn(direction: Direction, changeTime: real)
  {
    predicate Valid()
    {
      MIN_CHANGE_TIME <= changeTime <= MAX_CHANGE_TIME
    }
  }

  datatype GhostState = GhostState(
    x: int, y: int, direction: Direction, changeTime: real,
    speed: int, area: Rect, sheet: Sheet, anim: Animator)

  /** The ghost lies in its home area shrunk by the margin on every side. */
  predicate AtHome(g: GhostState)
  {
    && g.area.left + MARGIN <= g.x <= g.area.Right() - MARGIN
    && g.area.top + MARGIN <= g.y <= g.area.Bottom() - MARGIN
  }

  /** The home area leaves room for the ghost once shrunk by the margin. */
  predicate RoomyArea(a: Rect)
  {
    a.width >= 2 * MARGIN && a.height >= 2 * MARGIN
  }

  /** One ghost update after dt seconds; turn is the random draw used if the
      re-direction countdown expires. */
  function StepGhost(g: GhostState, dt: real, turn: Turn): (r: GhostState)
    requires g.anim.Valid()
    ensures r.speed == g.speed && r.area == g.area
    // the direction changes only when the countdown has dropped to zero or below
    ensures g.changeTime - dt <= 0.0 ==> r.direction == turn.direction && r.changeTime == turn.changeTime
    ensures g.changeTime - dt > 0.0 ==> r.direction == g.direction && r.changeTime == g.changeTime - dt
    ensures (turn.Valid() && g.changeTime - dt <= 0.0)
        ==> MIN_CHANGE_TIME <= r.changeTime <= MAX_CHANGE_TIME
    // the ghost moves in its (possibly new) direction, limited to its shrunk home
    ensures r.x == Clamp(g.area.left + MARGIN, g.area.Right() - MARGIN, g.x + DX(r.direction) * g.speed)
    ensures r.y == Clamp(g.area.top + MARGIN, g.area.Bottom() - MARGIN, g.y + DY(r.direction) * g.speed)
    ensures RoomyArea(g.area) ==> AtHome(r)
    // the walking sheet is chosen even for a ghost standing still
    ensures r.sheet == GhostWalk
    ensures r.anim == Advance(g.anim, dt)
  {
    var expired := g.changeTime - dt <= 0.0;
    var direction := if expired then turn.direction else g.direction;
    var changeTime := if expired then turn.changeTime else g.changeTime - dt;
    var x := Clamp(g.area.left + MARGIN, g.area.Right() - MARGIN, g.x + DX(direction) * g.speed);
    var y := Clamp(g.area.top + MARGIN, g.area.Bottom() - MARGIN, g.y + DY(direction) * g.speed);
    GhostState(x, y, direction, changeTime, g.speed, g.area, GhostWalk, Advance(g.anim, dt))
  }

  /** A ghost that starts at home stays at home, however many updates. */
  lemma {:induction false} GhostStaysHome(g: GhostState, dts: seq<real>, turns: seq<Turn>)
    requires g.anim.Valid() && RoomyArea(g.area) && AtHome(g)
    requires |turns| == |dts|
    ensures AtHome(StepGhostMany(g, dts, turns))
    decreases |dts|
  {
    if dts != [] {
      GhostStaysHome(StepGhost(g, dts[0], turns[0]), dts[1..], turns[1..]);
    }
  }

  /** Successive ghost updates, one per elapsed time and turn. */
  function StepGhostMany(g: GhostState, dts: seq<real>, turns: seq<Turn>): (r: GhostState)
    requires g.anim.Valid()
    requires |turns| == |dts|
    ensures r.anim.Valid() && r.area == g.area && r.speed == g.speed
    decreases |dts|
  {
    if dts == [] then g
    else StepGhostMany(StepGhost(g, dts[0], turns[0]), dts[1..], turns[1..])
  }

  class Ghost {
    var x: int
    var y: int
    var direction: Direction
    var changeTime: real
    const speed: int
    const area: Rect
    var sheet: Sheet
    var anim: Animator

    function View(): GhostState
      reads this
    {
      GhostState(x, y, direction, changeTime, speed, area, sheet, anim)
    }

    ghost predicate Valid()
      reads this
    {
      anim.Valid()
    }

    /** A ghost at (x, y) confined to area, showing the idle sheet whose width
        gives the frame count, with the random choices of spawn. */
    constructor (x: int, y: int, area: Rect, idleWidth: nat, spawn: GhostSpawn)
      requires idleWidth >= FRAME_W
      requires spawn.Valid()
      ensures Valid()
      ensures View() == GhostState(x, y, spawn.direction, spawn.changeTime, spawn.speed,
                                   area, GhostIdle, NewAnimator(idleWidth))
    {
      this.x, this.y, this.area := x, y, area;
      speed := spawn.speed;
      direction := spawn.direction;
      changeTime := spawn.changeTime;
      sheet, anim := GhostIdle, NewAnimator(idleWidth);
    }

    function Box(): Box
      reads this
    {
      CenteredBox(x as real, y as real)
    }

    method Update(dt: real, turn: Turn)
      requires Valid() && turn.Valid()
      modifies this
      ensures Valid()
      ensures View() == StepGhost(old(View()), dt, turn)
    {
      changeTime := changeTime - dt;
      if changeTime <= 0.0 {
        direction := turn.direction;
        changeTime := turn.changeTime;
      }

      x := Clamp(area.left + MARGIN, area.Right() - MARGIN, x + DX(direction) * speed);
      y := Clamp(area.top + MARGIN, area.Bottom() - MARGIN, y + DY(direction) * speed);

      // the direction is never equal to the list it is compared with, so the
      // walking sheet is always chosen
      sheet := GhostWalk;

      anim := Advance(anim, dt);
    }
  }

  /** The field values of each ghost of a list, in order. */
  function ViewsOf(gs: seq<Ghost>): (vs: seq<GhostState>)
    reads gs
    ensures |vs| == |gs| && forall i :: 0 <= i < |gs| ==> vs[i] == gs[i].View()
  {
    seq(|gs|, i requires 0 <= i < |gs| reads gs => gs[i].View())
  }

  /** Every ghost of a list takes its own step, each with its own random
      draw. */
  function StepAllGhosts(vs: seq<GhostState>, dt: real, turns: seq<Turn>): (rs: seq<GhostState>)
    requires |turns| == |vs| && forall v <- vs :: v.anim.Valid()
    ensures |rs| == |vs| && forall i :: 0 <= i < |vs| ==> rs[i] == StepGhost(vs[i], dt, turns[i])
  {
    seq(|vs|, i requires 0 <= i < |vs| => StepGhost(vs[i], dt, turns[i]))
  }

  // --------------------------------------------------------------- potions

  const POTION_START_Y: real := -50.0
  const MIN_POTION_SPEED: real := 2.0
  const MAX_POTION_SPEED: real := 4.0
  /** Potions appear at least this far from either side of the arena. */
  const POTION_SIDE: int := 50

  /** A falling potion. The program keeps potions as objects that fall in
      place; nothing but the session's list refers to them, so here a potion
      is a value and the list holds its current state. */
  datatype Potion = Potion(x: int, y: real, speed: real)
  {
    /** The column and speed lie in the ranges the random draws come from. */
    predicate Valid()
    {
      && POTION_SIDE <= x <= WIDTH - POTION_SIDE
      && MIN_POTION_SPEED <= speed <= MAX_POTION_SPEED
    }

    /** The potion's 48 x 48 collision box centred on its exact position. */
    function Box(): Box
    {
      CenteredBox(x as real, y)
    }
  }

  /** A new potion above the top edge at column x, falling at speed pixels
      per update; x and speed are the random draws. */
  function NewPotion(x: int, speed: real): (p: Potion)
    requires POTION_SIDE <= x <= WIDTH - POTION_SIDE
    requires MIN_POTION_SPEED <= speed <= MAX_POTION_SPEED
    ensures p.x == x && p.y == POTION_START_Y && p.speed == speed
    ensures p.Valid() && p.y < 0.0
  {
    Potion(x, POTION_START_Y, speed)
  }

  /** One potion update: it falls straight down by its speed and is never
      clamped. */
  function Fall(p: Potion): (r: Potion)
    ensures r.x == p.x && r.speed == p.speed && r.y == p.y + p.speed
    ensures p.Valid() ==> r.Valid() && r.y >= p.y + MIN_POTION_SPEED
  {
    p.(y := p.y + p.speed)
  }

  /** n successive updates. */
  function FallMany(p: Potion, n: nat): (r: Potion)
    ensures r.x == p.x && r.speed == p.speed
    decreases n
  {
    if n == 0 then p else Fall(FallMany(p, n - 1))
  }

  /** A valid potion sinks at least MIN_POTION_SPEED per update, so one that
      is never caught is below the bottom edge after at most
      (HEIGHT - y) / MIN_POTION_SPEED + 1 updates. */
  lemma {:induction false} PotionSinks(p: Potion, n: nat)
    requires p.Valid()
    ensures FallMany(p, n).y >= p.y + (n as real) * MIN_POTION_SPEED
    ensures (n as real) * MIN_POTION_SPEED > HEIGHT as real - p.y ==> FallMany(p, n).y > HEIGHT as real
  {
    if n > 0 {
      PotionSinks(p, n - 1);
      assert (n as real) * MIN_POTION_SPEED == ((n - 1) as real) * MIN_POTION_SPEED + MIN_POTION_SPEED;
    }
  }
}
