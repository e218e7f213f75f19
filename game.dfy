/**
 * The game session: the state machine menu -> playing -> win/lose -> menu,
 * the countdown, the score, the live player, ghosts and potions, the tick
 * that advances them, and the input handlers that drive the transitions.
 */
module Game {
  import opened Geometry
  import opened Animation
  import opened Entities
  import opened Scoring

  datatype GameState = Menu | Playing | Win | Lose

  /** The keys the handlers react to; every other key is OtherKey. */
  datatype Key = LeftArrow | RightArrow | Space | Return | OtherKey

  datatype Button = Start | Music | Sounds | Exit

  datatype Option<T> = None | Some(value: T)

  /** Length of a game, in seconds. */
  const GAME_TIME: real := 30.0
  /** A potion appears once more than this many seconds have gathered. */
  const SPAWN_INTERVAL: real := 1.0

  const PLAYER_START_X: int := WIDTH / 2
  const PLAYER_START_Y: int := HEIGHT - 50

  const LEFT_AREA: Rect := Rect(50, 50, 300, 500)
  const RIGHT_AREA: Rect := Rect(450, 50, 300, 500)

  /** Where a ghost starts and the area it may wander in. */
  datatype Seat = Seat(x: int, y: int, area: Rect)

  const GHOST_SEATS: seq<Seat> := [
    Seat(120, 150, LEFT_AREA), Seat(250, 300, LEFT_AREA),
    Seat(500, 150, RIGHT_AREA), Seat(650, 350, RIGHT_AREA)]

  /** The seat lies inside its roomy area shrunk by the margin. */
  predicate SeatIsHome(s: Seat)
  {
    && RoomyArea(s.area)
    && s.area.left + MARGIN <= s.x <= s.area.Right() - MARGIN
    && s.area.top + MARGIN <= s.y <= s.area.Bottom() - MARGIN
  }

  lemma SeatsAreHome()
    ensures forall i :: 0 <= i < |GHOST_SEATS| ==> SeatIsHome(GHOST_SEATS[i])
  {
  }

  /** The ghost a seat starts with, given the random choices of its spawn. */
  function SeatedGhost(seat: Seat, spawn: GhostSpawn, idleWidth: nat): (g: GhostState)
    requires idleWidth >= FRAME_W
    ensures SeatIsHome(seat) ==> AtHome(g)
    ensures g.anim.Valid() && g.anim.frameIndex == 0
    ensures g.area == seat.area && g.sheet == GhostIdle
  {
    GhostState(seat.x, seat.y, spawn.direction, spawn.changeTime, spawn.speed, seat.area,
               GhostIdle, NewAnimator(idleWidth))
  }

  /** Two resets with different random choices seat the same ghosts: they
      differ in speed, direction and countdown only. */
  lemma SeatingIgnoresSpawn(seat: Seat, s1: GhostSpawn, s2: GhostSpawn, idleWidth: nat)
    requires idleWidth >= FRAME_W
    ensures SeatedGhost(seat, s1, idleWidth)
         == SeatedGhost(seat, s2, idleWidth).(direction := s1.direction, changeTime := s1.changeTime,
                                              speed := s1.speed)
  {
  }

  /** The menu buttons, top to bottom. */
  const BUTTONS: seq<Button> := [Start, Music, Sounds, Exit]

  function ButtonRect(i: nat): Rect
  {
    Rect(WIDTH / 2 - 140, 200 + i * 80, 280, 60)
  }

  /** The menu button under the point, if any. The buttons do not overlap,
      so a point is in at most one of them. */
  function ButtonAt(px: int, py: int): (b: Option<Button>)
    ensures b.None? <==> forall i :: 0 <= i < |BUTTONS| ==> !ButtonRect(i).Contains(px, py)
    ensures forall i :: 0 <= i < |BUTTONS| && ButtonRect(i).Contains(px, py) ==> b == Some(BUTTONS[i])
  {
    if ButtonRect(0).Contains(px, py) then Some(Start)
    else if ButtonRect(1).Contains(px, py) then Some(Music)
    else if ButtonRect(2).Contains(px, py) then Some(Sounds)
    else if ButtonRect(3).Contains(px, py) then Some(Exit)
    else None
  }

  /** The moves of the state machine: a new game from the menu, the end of
      a game, and the return to the menu once a game has ended. */
  predicate Move(from: GameState, to: GameState)
  {
    || (from == Menu && to == Playing)
    || (from == Playing && (to == Win || to == Lose))
    || ((from == Win || from == Lose) && to == Menu)
  }

  /** The game state after a key press: Return leaves a finished game for
      the menu, and no other key changes the state. */
  function KeyState(s: GameState, key: Key): (r: GameState)
    ensures r != s <==> (s == Win || s == Lose) && key == Return
    ensures r != s ==> Move(s, r) && r == Menu
  {
    if (s == Win || s == Lose) && key == Return then Menu else s
  }

  /** The player after a key press during a game: the arrows set the
      direction, Space asks for an attack, and other keys do nothing. */
  function PressKey(p: PlayerState, key: Key): (r: PlayerState)
    ensures r.x == p.x && r.y == p.y && r.facingLeft == p.facingLeft && r.sheet == p.sheet
    ensures r.direction == (if key == LeftArrow then -1 else if key == RightArrow then 1 else p.direction)
    ensures key == Space ==> r == Attacked(p)
    ensures key != Space ==> r.attacking == p.attacking && r.attackTime == p.attackTime && r.anim == p.anim
    ensures key != LeftArrow && key != RightArrow && key != Space ==> r == p
  {
    match key
    case LeftArrow => p.(direction := -1)
    case RightArrow => p.(direction := 1)
    case Space => Attacked(p)
    case _ => p
  }

  /** The game state after a click: only a click on Start while on the menu
      changes it, to a game in progress. */
  function ClickState(s: GameState, b: Option<Button>): (r: GameState)
    ensures r != s <==> s == Menu && b == Some(Start)
    ensures r != s ==> Move(s, r) && r == Playing
  {
    if s == Menu && b == Some(Start) then Playing else s
  }

  /** The four ghosts of a new round, one per seat in order, with the random
      choices of spawns. */
  method SeatGhosts(spawns: seq<GhostSpawn>, idleWidth: nat) returns (gs: seq<Ghost>)
    requires |spawns| == |GHOST_SEATS| && forall s <- spawns :: s.Valid()
    requires idleWidth >= FRAME_W
    ensures |gs| == |GHOST_SEATS| && Distinct(gs)
    ensures forall i :: 0 <= i < |gs| ==> fresh(gs[i])
    ensures forall i :: 0 <= i < |gs| ==>
      gs[i].Valid() && RoomyArea(gs[i].area) && gs[i].View() == SeatedGhost(GHOST_SEATS[i], spawns[i], idleWidth)
  {
    SeatsAreHome();
    var g0 := new Ghost(GHOST_SEATS[0].x, GHOST_SEATS[0].y, GHOST_SEATS[0].area, idleWidth, spawns[0]);
    var g1 := new Ghost(GHOST_SEATS[1].x, GHOST_SEATS[1].y, GHOST_SEATS[1].area, idleWidth, spawns[1]);
    var g2 := new Ghost(GHOST_SEATS[2].x, GHOST_SEATS[2].y, GHOST_SEATS[2].area, idleWidth, spawns[2]);
    var g3 := new Ghost(GHOST_SEATS[3].x, GHOST_SEATS[3].y, GHOST_SEATS[3].area, idleWidth, spawns[3]);
    gs := [g0, g1, g2, g3];
  }

  /** The potions spawned by a tick whose spawn accumulator reaches acc:
      one new potion once acc exceeds the interval, none otherwise. */
  function Spawned(acc: real, x: int, speed: real): (ps: seq<Potion>)
    requires POTION_SIDE <= x <= WIDTH - POTION_SIDE
    requires MIN_POTION_SPEED <= speed <= MAX_POTION_SPEED
    ensures |ps| <= 1 && (|ps| == 1 <==> acc > SPAWN_INTERVAL)
    ensures forall p <- ps :: p.Valid() && p.x == x && p.speed == speed && p.y == POTION_START_Y
  {
    if acc > SPAWN_INTERVAL then [NewPotion(x, speed)] else []
  }

  /** The walk over a copy of the ghost list against the player's box pb:
      a touching ghost is removed from the live list for GHOST_POINTS while
      the player attacks, and otherwise the walk stops with the player
      caught. */
  method FightGhosts(gs: seq<Ghost>, pb: Box, attacking: bool)
      returns (live: seq<Ghost>, gained: nat, caught: bool)
    requires Distinct(gs)
    ensures Fight(live, gained, caught) == ResolveGhosts(gs, pb, attacking)
  {
    live, gained, caught := gs, 0, false;
    ghost var kept: seq<Ghost> := [];
    var k := 0;
    while k < |gs|
      invariant WalkedUpTo(gs, k, kept, live, gained, pb, attacking)
    {
      var g := gs[k];
      if Overlaps(pb, g.Box()) {
        if !attacking {
          WalkCaught(gs, k, kept, live, gained, pb);
          caught := true;
          return;
        }
        WalkPastDefeated(gs, k, kept, live, gained, pb);
        live := RemoveFirst(live, g);
        gained := gained + GHOST_POINTS;
      } else {
        WalkPastClear(gs, k, kept, live, gained, pb, attacking);
        kept := kept + [g];
      }
      k := k + 1;
    }
    assert gs[k..] == [];
  }

  /** The part of a session that a game round consists of. */
  datatype Round = Round(player: Player?, ghosts: seq<Ghost>, potions: seq<Potion>,
                         score: int, timer: real, spawnTimer: real)

  class Session {
    var state: GameState
    var musicOn: bool
    var soundsOn: bool
    var player: Player?
    var ghosts: seq<Ghost>
    var potions: seq<Potion>
    var score: int
    var timer: real
    var spawnTimer: real
    /** Pixel widths of the idle sheets, which fix the frame counts. */
    const playerIdleWidth: nat
    const ghostIdleWidth: nat

    function CurrentRound(): Round
      reads this
    {
      Round(player, ghosts, potions, score, timer, spawnTimer)
    }

    /** Every live ghost is valid and at home in a roomy area, and none is
        listed twice. */
    ghost predicate GhostsValid()
      reads this, ghosts
    {
      && Distinct(ghosts)
      && (forall g <- ghosts :: g.Valid() && RoomyArea(g.area) && AtHome(g.View()))
    }

    ghost predicate Valid()
      reads this, player, ghosts
    {
      && playerIdleWidth >= FRAME_W && ghostIdleWidth >= FRAME_W
      && (state != Menu ==> player != null)
      && (player != null ==> player.Valid() && MARGIN <= player.x <= WIDTH - MARGIN)
      && GhostsValid()
      && (forall p <- potions :: p.Valid())
      && 0 <= score
    }

    /** The session as the program starts: on the menu, music and sounds on,
        no player yet. */
    constructor (playerIdleWidth: nat, ghostIdleWidth: nat)
      requires playerIdleWidth >= FRAME_W && ghostIdleWidth >= FRAME_W
      ensures Valid()
      ensures state == Menu && musicOn && soundsOn
      ensures CurrentRound() == Round(null, [], [], 0, GAME_TIME, 0.0)
      ensures this.playerIdleWidth == playerIdleWidth && this.ghostIdleWidth == ghostIdleWidth
    {
      this.playerIdleWidth, this.ghostIdleWidth := playerIdleWidth, ghostIdleWidth;
      state, musicOn, soundsOn := Menu, true, true;
      player, ghosts, potions := null, [], [];
      score, timer, spawnTimer := 0, GAME_TIME, 0.0;
    }

    /** The state right after a reset with the given random ghost choices:
        everything but those choices is the same on every reset. */
    ghost predicate NewGame(spawns: seq<GhostSpawn>)
      requires |spawns| == |GHOST_SEATS|
      reads this, player, ghosts
    {
      && playerIdleWidth >= FRAME_W && ghostIdleWidth >= FRAME_W
      && player != null
      && player.View() == PlayerState(PLAYER_START_X, PLAYER_START_Y, 0, false, false, 0.0,
                                      PlayerIdle, NewAnimator(playerIdleWidth))
      && |ghosts| == |GHOST_SEATS|
      && (forall i :: 0 <= i < |ghosts| ==>
            ghosts[i].View() == SeatedGhost(GHOST_SEATS[i], spawns[i], ghostIdleWidth))
      && potions == [] && score == 0 && timer == GAME_TIME && spawnTimer == 0.0
    }

    /** Rebuilds the round: a new player, the four ghosts at their seats, no
        potions, a zero score and a full countdown. The game state and the
        audio settings are left alone. */
    method Reset(spawns: seq<GhostSpawn>)
      requires playerIdleWidth >= FRAME_W && ghostIdleWidth >= FRAME_W
      requires |spawns| == |GHOST_SEATS| && forall s <- spawns :: s.Valid()
      modifies this
      ensures Valid() && NewGame(spawns)
      ensures fresh(player) && forall i :: 0 <= i < |ghosts| ==> fresh(ghosts[i])
      ensures state == old(state) && musicOn == old(musicOn) && soundsOn == old(soundsOn)
    {
      player := new Player(PLAYER_START_X, PLAYER_START_Y, playerIdleWidth);
      ghosts := SeatGhosts(spawns, ghostIdleWidth);
      potions := [];
      score, timer, spawnTimer := 0, GAME_TIME, 0.0;
    }

    /** Every ghost, in order, takes its own step; turns holds each ghost's
        random draw for an expiring countdown. */
    method StepGhosts(dt: real, turns: seq<Turn>)
      requires GhostsValid()
      requires |turns| == |ghosts| && forall t <- turns :: t.Valid()
      modifies ghosts
      ensures GhostsValid()
      ensures ViewsOf(ghosts) == StepAllGhosts(old(ViewsOf(ghosts)), dt, turns)
    {
      var gs := ghosts;
      var i := 0;
      while i < |gs|
        invariant 0 <= i <= |gs|
        invariant forall k :: 0 <= k < |gs| ==>
          gs[k].View() == if k < i then StepGhost(old(gs[k].View()), dt, turns[k]) else old(gs[k].View())
      {
        gs[i].Update(dt, turns[i]);
        i := i + 1;
      }
    }

    /** The potion pass over the live potions, walking a copy of the list:
        each potion falls; one that then touches the player's box pb is
        caught for POTION_POINTS and removed from the list, one below the
        bottom edge is removed, and the rest stay where they are in their
        fallen state. pos is where the current potion sits in the list. */
    method PotionPass(pb: Box)
      modifies this`potions, this`score
      ensures potions == CollectPotions(old(potions), pb).kept
      ensures score == old(score) + CollectPotions(old(potions), pb).picked
    {
      var snapshot := potions;
      ghost var picked: nat := 0;
      var pos := 0;
      var j := 0;
      while j < |snapshot|
        invariant 0 <= j <= |snapshot| && 0 <= pos <= |potions|
        invariant CollectPotions(snapshot[..j], pb) == Collected(potions[..pos], picked)
        invariant potions[pos..] == snapshot[j..]
        invariant score == old(score) + picked
      {
        assert potions[pos] == snapshot[j];
        var p := Fall(snapshot[j]);
        potions := potions[pos := p];
        assert snapshot[..j + 1] == snapshot[..j] + [snapshot[j]];
        CollectAppend(snapshot[..j], snapshot[j], pb);
        if Overlaps(p.Box(), pb) {
          score := score + POTION_POINTS;
          potions := potions[..pos] + potions[pos + 1..];
          picked := picked + 1;
        } else if p.y > HEIGHT as real {
          potions := potions[..pos] + potions[pos + 1..];
        } else {
          assert potions[..pos + 1] == potions[..pos] + [p];
          pos := pos + 1;
        }
        j := j + 1;
      }
      assert snapshot[..j] == snapshot && potions[..pos] == potions;
    }

    /** The ghost pass over the live ghosts, walking a copy of the list,
        against the player's box pb: a touching ghost is defeated for
        GHOST_POINTS and removed while the player attacks, and otherwise
        ends the game at once. The list and the score are held in locals
        during the pass and stored when it ends. */
    method GhostPass(pb: Box, attacking: bool) returns (caught: bool)
      requires GhostsValid() && state == Playing
      modifies this`ghosts, this`score, this`state
      ensures caught == ResolveGhosts(old(ghosts), pb, attacking).lost
      ensures ghosts == ResolveGhosts(old(ghosts), pb, attacking).kept
      ensures score == old(score) + ResolveGhosts(old(ghosts), pb, attacking).gained
      ensures state == if caught then Lose else Playing
      ensures GhostsValid()
    {
      var live, gained;
      live, gained, caught := FightGhosts(ghosts, pb, attacking);
      FightKeptDistinct(ghosts, pb, attacking);
      ghosts, score := live, score + gained;
      if caught {
        state := Lose;
      }
    }

    /** The first half of a tick: the player, then every ghost in order,
        takes its own step. */
    method StepEntities(dt: real, turns: seq<Turn>)
      requires Valid() && player != null
      requires |turns| == |ghosts| && forall t <- turns :: t.Valid()
      modifies player, ghosts
      ensures Valid()
      ensures player.View() == StepPlayer(old(player.View()), dt)
      ensures ViewsOf(ghosts) == StepAllGhosts(old(ViewsOf(ghosts)), dt, turns)
    {
      player.Update(dt);
      StepGhosts(dt, turns);
    }

    /** The first part of a tick of a game in progress: the countdown runs
        down, the spawn accumulator fills, every entity takes its step, and a
        potion is added at the end of the list once the accumulator exceeds
        the interval, which empties it. */
    method StepTimersAndEntities(dt: real, turns: seq<Turn>, potionX: int, potionSpeed: real)
      requires Valid() && state == Playing
      requires |turns| == |ghosts| && forall t <- turns :: t.Valid()
      requires POTION_SIDE <= potionX <= WIDTH - POTION_SIDE
      requires MIN_POTION_SPEED <= potionSpeed <= MAX_POTION_SPEED
      modifies this`timer, this`spawnTimer, this`potions, player, ghosts
      ensures Valid()
      ensures timer == old(timer) - dt
      ensures spawnTimer == if old(spawnTimer) + dt > SPAWN_INTERVAL then 0.0 else old(spawnTimer) + dt
      ensures potions == old(potions) + Spawned(old(spawnTimer) + dt, potionX, potionSpeed)
      ensures player.View() == StepPlayer(old(player.View()), dt)
      ensures ViewsOf(ghosts) == StepAllGhosts(old(ViewsOf(ghosts)), dt, turns)
    {
      timer := timer - dt;
      spawnTimer := spawnTimer + dt;

      StepEntities(dt, turns);

      if spawnTimer > SPAWN_INTERVAL {
        spawnTimer := 0.0;
        potions := potions + [NewPotion(potionX, potionSpeed)];
      } else {
        assert potions + [] == potions;
      }
    }

    /** The outcome of the collision passes of a tick, against the player's
        box pb: the potions left by the potion pass over before and the
        ghosts left by the ghost pass over gs; the score gains a point per
        caught potion and GHOST_POINTS per defeated ghost; a caught player
        loses, and otherwise the game is won once the countdown has run
        out. */
    ghost predicate Resolved(before: seq<Potion>, score0: int, gs: seq<Ghost>, pb: Box, attacking: bool)
      reads this, gs
    {
      var c := CollectPotions(before, pb);
      var f := ResolveGhosts(gs, pb, attacking);
      && potions == c.kept
      && score == score0 + c.picked + f.gained
      && ghosts == f.kept
      && state == if f.lost then Lose else if timer <= 0.0 then Win else Playing
    }

    /** The second part of a tick of a game in progress, against the
        player's box: the potion pass, then the ghost pass; a caught player
        loses at once, and otherwise the game is won once the countdown has
        run out. */
    method Resolve()
      requires Valid() && state == Playing
      modifies this`potions, this`score, this`ghosts, this`state
      ensures Valid()
      ensures Resolved(old(potions), old(score), old(ghosts), player.Box(), player.attacking)
    {
      var pb, attacking := player.Box(), player.attacking;
      KeptValid(potions, pb);
      PotionPass(pb);
      var caught := GhostPass(pb, attacking);
      // a caught player ends the tick before the countdown is looked at
      if !caught && timer <= 0.0 {
        state := Win;
      }
    }


    /** One simulation tick of dt seconds. turns holds, per ghost, the random
        draw used if its countdown expires; potionX and potionSpeed are the
        random draws for a potion spawned this tick. */
    method Update(dt: real, turns: seq<Turn>, potionX: int, potionSpeed: real)
      requires Valid()
      requires |turns| == |ghosts| && forall t <- turns :: t.Valid()
      requires POTION_SIDE <= potionX <= WIDTH - POTION_SIDE
      requires MIN_POTION_SPEED <= potionSpeed <= MAX_POTION_SPEED
      modifies this, player, ghosts
      ensures Valid()
      // the state only ever takes a move of the state machine, and the
      // score never goes down
      ensures state == old(state) || Move(old(state), state)
      ensures score >= old(score)
      // outside a game in progress a tick changes nothing
      ensures old(state) != Playing ==>
        unchanged(this) && (player != null ==> unchanged(player)) && unchanged(ghosts)
      ensures musicOn == old(musicOn) && soundsOn == old(soundsOn) && player == old(player)
      // the countdown and the spawn accumulator
      ensures old(state) == Playing ==> timer == old(timer) - dt
      ensures old(state) == Playing ==>
        spawnTimer == if old(spawnTimer) + dt > SPAWN_INTERVAL then 0.0 else old(spawnTimer) + dt
      // every entity takes its own step
      ensures old(state) == Playing ==> player.View() == StepPlayer(old(player.View()), dt)
      ensures old(state) == Playing ==>
        ViewsOf(old(ghosts)) == StepAllGhosts(old(ViewsOf(ghosts)), dt, turns)
      // a potion is spawned at the end of the list, then the potion pass,
      // the ghost pass and the countdown decide the outcome
      ensures old(state) == Playing ==>
        Resolved(old(potions) + Spawned(old(spawnTimer) + dt, potionX, potionSpeed),
                 old(score), old(ghosts), player.Box(), player.attacking)
    {
      if state != Playing {
        return;
      }
      Tick(dt, turns, potionX, potionSpeed);
    }

    /** A tick of a game in progress. */
    method Tick(dt: real, turns: seq<Turn>, potionX: int, potionSpeed: real)
      requires Valid() && state == Playing
      requires |turns| == |ghosts| && forall t <- turns :: t.Valid()
      requires POTION_SIDE <= potionX <= WIDTH - POTION_SIDE
      requires MIN_POTION_SPEED <= potionSpeed <= MAX_POTION_SPEED
      modifies this`timer, this`spawnTimer, this`potions, this`score, this`ghosts, this`state
      modifies player, ghosts
      ensures Valid()
      ensures timer == old(timer) - dt
      ensures spawnTimer == if old(spawnTimer) + dt > SPAWN_INTERVAL then 0.0 else old(spawnTimer) + dt
      ensures player.View() == StepPlayer(old(player.View()), dt)
      ensures ViewsOf(old(ghosts)) == StepAllGhosts(old(ViewsOf(ghosts)), dt, turns)
      ensures Resolved(old(potions) + Spawned(old(spawnTimer) + dt, potionX, potionSpeed),
                       old(score), old(ghosts), player.Box(), player.attacking)
    {
      ghost var gs := ghosts;
      StepTimersAndEntities(dt, turns, potionX, potionSpeed);
      label advanced:
      Resolve();
      assert ViewsOf(gs) == old@advanced(ViewsOf(gs));
    }

    /** A key press. During a game the arrows set the player's direction and
        Space starts an attack; after a game Return goes back to the menu. */
    method OnKeyDown(key: Key)
      requires Valid()
      modifies this`state, player
      ensures Valid()
      ensures state == KeyState(old(state), key)
      ensures old(state) == Playing ==> player.View() == PressKey(old(player.View()), key)
      ensures old(state) != Playing && player != null ==> unchanged(player)
    {
      if state == Playing {
        if key == LeftArrow {
          player.direction := -1;
        } else if key == RightArrow {
          player.direction := 1;
        } else if key == Space {
          player.StartAttack();
        }
      } else if (state == Win || state == Lose) && key == Return {
        state := Menu;
      }
    }

    /** A key release, whatever the key and whatever the state: the player
        stops. There must be a player, which there is once a first game has
        started. */
    method OnKeyUp(key: Key)
      requires Valid() && player != null
      modifies player
      ensures Valid()
      ensures player.View() == old(player.View()).(direction := 0)
    {
      player.direction := 0;
    }

    /** A click at (px, py). On the menu, Start resets the round and starts
        a game, Music and Sounds flip their settings, and Exit asks for the
        program to end, which exit reports; elsewhere a click does nothing.
        spawns holds the random ghost choices a reset uses. */
    method OnMouseDown(px: int, py: int, spawns: seq<GhostSpawn>) returns (exit: bool)
      requires Valid()
      requires |spawns| == |GHOST_SEATS| && forall s <- spawns :: s.Valid()
      modifies this
      ensures Valid()
      ensures state == ClickState(old(state), ButtonAt(px, py))
      ensures exit <==> old(state) == Menu && ButtonAt(px, py) == Some(Exit)
      ensures musicOn <==> (old(musicOn) != (old(state) == Menu && ButtonAt(px, py) == Some(Music)))
      ensures soundsOn <==> (old(soundsOn) != (old(state) == Menu && ButtonAt(px, py) == Some(Sounds)))
      ensures old(state) == Menu && ButtonAt(px, py) == Some(Start) ==> NewGame(spawns)
      ensures old(state) == Menu && ButtonAt(px, py) == Some(Start)
           ==> fresh(player) && forall i :: 0 <= i < |ghosts| ==> fresh(ghosts[i])
      ensures !(old(state) == Menu && ButtonAt(px, py) == Some(Start)) ==> CurrentRound() == old(CurrentRound())
    {
      exit := false;
      if state == Menu {
        var b := ButtonAt(px, py);
        if b == Some(Start) {
          Reset(spawns);
          state := Playing;
        } else if b == Some(Music) {
          musicOn := !musicOn;
        } else if b == Some(Sounds) {
          soundsOn := !soundsOn;
        } else if b == Some(Exit) {
          exit := true;
        }
      }
    }
  }
}
