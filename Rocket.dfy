/**
 * The rocket game: the ship sits near the bottom of a 400 x 500 field and
 * moves sideways by 7 while an arrow key (or `a` / `d`) is held; 30 x 30
 * obstacles fall from above. The score grows by a tenth for every frame
 * survived; the first obstacle that touches the ship ends the round, and the
 * whole seconds survived go onto a descending top-5 board.
 *
 * The score is kept as the number of frames survived, so the shown score is
 * `frames / 10` (see the README for the rounding of the original floating
 * point sum). Each animation frame is the method `Update`.
 */
module Rocket {

  import opened Leaderboard
  import Nickname
  import Geometry

  const CANVAS_WIDTH: int := 400
  const CANVAS_HEIGHT: int := 500
  const PLAYER_SIZE: int := 40
  const OBSTACLE_SIZE: int := 30
  const PLAYER_SPEED: int := 7
  const OBSTACLE_SPEED_MIN: real := 3.0
  const OBSTACLE_SPEED_MAX: real := 6.0
  const SPAWN_RATE: real := 0.02
  const MAX_LEADERBOARD: nat := 5
  /** Frames per point: each frame adds a tenth. */
  const FRAMES_PER_POINT: nat := 10
  /** The ship's left edge at the start of a round: centred. */
  const START_X: int := CANVAS_WIDTH / 2 - PLAYER_SIZE / 2
  /** The ship's top edge, fixed. */
  const PLAYER_Y: int := CANVAS_HEIGHT - 60
  const DEFAULT_NAME: string := "Commander"
  const MAX_NAME_LENGTH: nat := 15

  datatype Obstacle = Obstacle(x: real, y: real, speed: real)

  /** The obstacle after one frame of falling: the same rule as the dodge game's objects. */
  function Fall(o: Obstacle): Obstacle
  {
    o.(y := o.y + o.speed)
  }

  /** The collision test of a frame, with the ship's left edge at `px`. */
  predicate Hits(px: int, o: Obstacle)
  {
    && (px as real) < o.x + OBSTACLE_SIZE as real
    && ((px + PLAYER_SIZE) as real) > o.x
    && (PLAYER_Y as real) < o.y + OBSTACLE_SIZE as real
    && ((PLAYER_Y + PLAYER_SIZE) as real) > o.y
  }

  function ShipBox(px: int): Geometry.Box
  {
    Geometry.Box(px as real, PLAYER_Y as real, PLAYER_SIZE as real, PLAYER_SIZE as real)
  }

  function ObstacleBox(o: Obstacle): Geometry.Box
  {
    Geometry.Box(o.x, o.y, OBSTACLE_SIZE as real, OBSTACLE_SIZE as real)
  }

  /**
   * The collision test is the overlap of the ship's square with the
   * obstacle's square: a hit exactly when some point lies strictly inside
   * both.
   */
  lemma HitsIsOverlap(px: int, o: Obstacle)
    ensures Hits(px, o) <==> Geometry.Overlaps(ShipBox(px), ObstacleBox(o))
    ensures Hits(px, o) <==> exists x, y :: Geometry.Inside(x, y, ShipBox(px)) && Geometry.Inside(x, y, ObstacleBox(o))
  {
    Geometry.OverlapsIffSharedPoint(ShipBox(px), ObstacleBox(o));
  }

  // ---------------------------------------------------------------------
  // Movement and spawning

  /**
   * One frame of movement: left by a step if a left key is held and the
   * ship's left edge is right of 0, then right by a step if a right key is
   * held and the left edge is left of `CANVAS_WIDTH - PLAYER_SIZE`. Both can
   * apply in one frame.
   */
  function Move(x: int, left: bool, right: bool): (r: int)
    ensures r == x - PLAYER_SPEED || r == x || r == x + PLAYER_SPEED
    ensures left && !right && x > 0 ==> r == x - PLAYER_SPEED
    ensures right && !left && x < CANVAS_WIDTH - PLAYER_SIZE ==> r == x + PLAYER_SPEED
    ensures !left && !right ==> r == x
    ensures r < x ==> left && x > 0
    ensures r > x ==> right
    ensures x > -PLAYER_SPEED ==> r > -PLAYER_SPEED
    ensures x < CANVAS_WIDTH - PLAYER_SIZE + PLAYER_SPEED ==> r < CANVAS_WIDTH - PLAYER_SIZE + PLAYER_SPEED
  {
    var x1 := if left && x > 0 then x - PLAYER_SPEED else x;
    if right && x1 < CANVAS_WIDTH - PLAYER_SIZE then x1 + PLAYER_SPEED else x1
  }

  /**
   * The positions the ship can take: the start position plus whole steps,
   * between -2 and 362. The edge test looks before the step, so the ship
   * can overhang either edge of the field by 2.
   */
  predicate OnTrack(x: int)
  {
    -2 <= x <= CANVAS_WIDTH - PLAYER_SIZE + 2 && (x - START_X) % PLAYER_SPEED == 0
  }

  lemma MoveStaysOnTrack(x: int, left: bool, right: bool)
    requires OnTrack(x)
    ensures OnTrack(Move(x, left, right))
  {
  }

  /** Both overhangs are reached: 5 moves left to -2, and 355 moves right to 362. */
  lemma OverhangReached()
    ensures OnTrack(5) && Move(5, true, false) == -2
    ensures OnTrack(355) && Move(355, false, true) == 362
  {
  }

  /** The obstacle a spawn creates from two values of the random generator. */
  function NewObstacle(rx: real, rs: real): (o: Obstacle)
    requires 0.0 <= rx < 1.0 && 0.0 <= rs < 1.0
    ensures 0.0 <= o.x < (CANVAS_WIDTH - OBSTACLE_SIZE) as real
    ensures o.y == -(OBSTACLE_SIZE as real)
    ensures OBSTACLE_SPEED_MIN <= o.speed < OBSTACLE_SPEED_MAX
  {
    Obstacle(rx * (CANVAS_WIDTH - OBSTACLE_SIZE) as real, -(OBSTACLE_SIZE as real),
             rs * (OBSTACLE_SPEED_MAX - OBSTACLE_SPEED_MIN) + OBSTACLE_SPEED_MIN)
  }

  /** A frame spawns an obstacle, at the end of the list, when its roll is below the spawn rate. */
  function Spawn(obs: seq<Obstacle>, roll: real, rx: real, rs: real): seq<Obstacle>
    requires 0.0 <= rx < 1.0 && 0.0 <= rs < 1.0
  {
    if roll < SPAWN_RATE then obs + [NewObstacle(rx, rs)] else obs
  }

  /** A newly spawned obstacle cannot hit the ship in the frame it appears. */
  lemma NewObstacleClear(rx: real, rs: real, px: int)
    requires 0.0 <= rx < 1.0 && 0.0 <= rs < 1.0
    ensures !Hits(px, Fall(NewObstacle(rx, rs)))
  {
  }

  // ---------------------------------------------------------------------
  // The pass over the obstacles, as a function

  /** What the pass does: the obstacles after it, and whether it ended the round. */
  datatype Sweep = Clear(obstacles: seq<Obstacle>) | Crashed(obstacles: seq<Obstacle>)
  {
    function Append(t: seq<Obstacle>): Sweep
    {
      match this
      case Clear(s) => Clear(s + t)
      case Crashed(s) => Crashed(s + t)
    }
  }

  /**
   * The pass over the obstacles from the LAST to the first: each falls; if
   * it then hits the ship the pass stops (the ones before it do not move);
   * otherwise it is dropped if it is past the bottom edge.
   */
  function Pass(px: int, obs: seq<Obstacle>): (r: Sweep)
    ensures |r.obstacles| <= |obs|
  {
    if obs == [] then Clear([])
    else
      var init, last := obs[..|obs| - 1], Fall(obs[|obs| - 1]);
      if Hits(px, last) then Crashed(init + [last])
      else Pass(px, init).Append(if last.y > CANVAS_HEIGHT as real then [] else [last])
  }

  /** Every obstacle after one frame of falling, in order: the same as the dodge game's `Fallen`. */
  function Fallen(obs: seq<Obstacle>): seq<Obstacle>
  {
    seq(|obs|, i requires 0 <= i < |obs| => Fall(obs[i]))
  }

  /**
   * The obstacles not yet past the bottom edge, in order (filtering from the
   * front): the dodge game's `OnScreen` with this field's height.
   */
  function OnScreen(obs: seq<Obstacle>): (r: seq<Obstacle>)
    ensures |r| <= |obs|
    ensures forall o :: o in r ==> o in obs && o.y <= CANVAS_HEIGHT as real
    ensures forall o :: o in obs && o.y <= CANVAS_HEIGHT as real ==> o in r
  {
    if obs == [] then []
    else if obs[0].y > CANVAS_HEIGHT as real then OnScreen(obs[1..])
    else [obs[0]] + OnScreen(obs[1..])
  }

  /** Keeping the on-field obstacles distributes over concatenation: the same fact as the dodge game's. */
  lemma {:induction false} OnScreenAppend(s: seq<Obstacle>, t: seq<Obstacle>)
    ensures OnScreen(s + t) == OnScreen(s) + OnScreen(t)
  {
    if s != [] {
      OnScreenAppend(s[1..], t);
      assert (s + t)[1..] == s[1..] + t;
    } else {
      assert s + t == t;
    }
  }

  /** A frame ends the round exactly when some obstacle, after falling, touches the ship. */
  lemma {:induction false} PassCrashIff(px: int, obs: seq<Obstacle>)
    ensures Pass(px, obs).Crashed? <==> exists i :: 0 <= i < |obs| && Hits(px, Fall(obs[i]))
  {
    if obs != [] {
      var init := obs[..|obs| - 1];
      PassCrashIff(px, init);
      if exists i :: 0 <= i < |init| && Hits(px, Fall(init[i])) {
        var i :| 0 <= i < |init| && Hits(px, Fall(init[i]));
        assert Hits(px, Fall(obs[i]));
      }
      if exists i :: 0 <= i < |obs| && Hits(px, Fall(obs[i])) {
        var i :| 0 <= i < |obs| && Hits(px, Fall(obs[i]));
        assert i == |obs| - 1 || Hits(px, Fall(init[i]));
      }
    }
  }

  lemma FallenSnoc(obs: seq<Obstacle>)
    requires obs != []
    ensures Fallen(obs) == Fallen(obs[..|obs| - 1]) + [Fall(obs[|obs| - 1])]
  {
    var f, g := Fallen(obs), Fallen(obs[..|obs| - 1]);
    assert forall i :: 0 <= i < |g| ==> f[i] == g[i];
  }

  /**
   * A frame without a hit moves every obstacle down by its speed and keeps,
   * in their order, exactly those still on the field: walking the list from
   * the back while removing gives the same list as filtering from the front.
   */
  lemma {:induction false} PassWithoutHit(px: int, obs: seq<Obstacle>)
    requires Pass(px, obs).Clear?
    ensures Pass(px, obs).obstacles == OnScreen(Fallen(obs))
  {
    if obs != [] {
      var init, last := obs[..|obs| - 1], Fall(obs[|obs| - 1]);
      PassWithoutHit(px, init);
      FallenSnoc(obs);
      OnScreenAppend(Fallen(init), [last]);
      assert OnScreen([last]) == (if last.y > CANVAS_HEIGHT as real then [] else [last]) by {
        assert [last][1..] == [];
      }
    }
  }

  /** The on-field part of a fallen list grows by its last obstacle, if that one stays on the field. */
  lemma OnScreenFallenSnoc(obs: seq<Obstacle>)
    requires obs != []
    ensures var last := Fall(obs[|obs| - 1]);
      OnScreen(Fallen(obs)) == OnScreen(Fallen(obs[..|obs| - 1])) + (if last.y > CANVAS_HEIGHT as real then [] else [last])
  {
    var last := Fall(obs[|obs| - 1]);
    FallenSnoc(obs);
    OnScreenAppend(Fallen(obs[..|obs| - 1]), [last]);
    assert OnScreen([last]) == (if last.y > CANVAS_HEIGHT as real then [] else [last]) by {
      assert [last][1..] == [];
    }
  }

  /** A last obstacle that misses leaves the rest of the pass to the others, and is kept if still on the field. */
  lemma PassMissLast(px: int, obs: seq<Obstacle>)
    requires obs != [] && !Hits(px, Fall(obs[|obs| - 1]))
    ensures var last := Fall(obs[|obs| - 1]);
      Pass(px, obs) == Pass(px, obs[..|obs| - 1]).Append(if last.y > CANVAS_HEIGHT as real then [] else [last])
  {
  }

  /** The step of `PassAtLastHit`: one more obstacle that misses, at the end. */
  lemma PassAtLastHitStep(px: int, obs: seq<Obstacle>, h: nat)
    requires h < |obs| - 1 && !Hits(px, Fall(obs[|obs| - 1]))
    requires Pass(px, obs[..|obs| - 1])
             == Crashed(obs[..h] + [Fall(obs[h])] + OnScreen(Fallen(obs[..|obs| - 1][h + 1..])))
    ensures Pass(px, obs) == Crashed(obs[..h] + [Fall(obs[h])] + OnScreen(Fallen(obs[h + 1..])))
  {
    var init, last := obs[..|obs| - 1], Fall(obs[|obs| - 1]);
    var head := obs[..h] + [Fall(obs[h])];
    var kept := OnScreen(Fallen(init[h + 1..]));
    var keepLast := if last.y > CANVAS_HEIGHT as real then [] else [last];
    var after := obs[h + 1..];
    var whole := OnScreen(Fallen(after));
    assert whole == kept + keepLast by {
      OnScreenFallenSnoc(after);
      assert after[..|after| - 1] == init[h + 1..];
    }
    assert Pass(px, obs) == Crashed(head + kept).Append(keepLast) by {
      PassMissLast(px, obs);
    }
    CrashedAppend(head, kept, keepLast, whole);
  }

  lemma CrashedAppend(head: seq<Obstacle>, kept: seq<Obstacle>, keepLast: seq<Obstacle>, whole: seq<Obstacle>)
    requires whole == kept + keepLast
    ensures Crashed(head + kept).Append(keepLast) == Crashed(head + whole)
  {
    AppendAssoc(head, kept, keepLast);
  }

  /**
   * A pass whose hit, walking from the back, is the obstacle at `h`: the
   * obstacles before it did not move; the hitting one fell; those after it
   * fell and only the ones still on the field were kept, in order.
   */
  lemma {:induction false} PassAtLastHit(px: int, obs: seq<Obstacle>, h: nat)
    requires h < |obs| && Hits(px, Fall(obs[h]))
    requires forall i :: h < i < |obs| ==> !Hits(px, Fall(obs[i]))
    ensures Pass(px, obs) == Crashed(obs[..h] + [Fall(obs[h])] + OnScreen(Fallen(obs[h + 1..])))
    decreases |obs| - h
  {
    if h == |obs| - 1 {
      assert obs[h + 1..] == [] && Fallen([]) == [];
      assert obs[..h] == obs[..|obs| - 1];
    } else {
      var init := obs[..|obs| - 1];
      assert init[..h] == obs[..h] && init[h] == obs[h];
      assert forall i :: h < i < |init| ==> init[i] == obs[i];
      PassAtLastHit(px, init, h);
      PassAtLastHitStep(px, obs, h);
    }
  }

  lemma AppendAssoc(s: seq<Obstacle>, t: seq<Obstacle>, u: seq<Obstacle>)
    ensures (s + t) + u == s + (t + u)
  {
  }

  /** One step of the pass from the back: the obstacle at `i` falls and hits. */
  lemma PassStepHit(px: int, obs: seq<Obstacle>, i: nat)
    requires i < |obs| && Hits(px, Fall(obs[i]))
    ensures Pass(px, obs[..i + 1]) == Crashed(obs[..i] + [Fall(obs[i])])
  {
    assert obs[..i + 1][..i] == obs[..i];
  }

  /** One step of the pass from the back: the obstacle at `i` falls, misses, and is dropped or kept. */
  lemma PassStepMiss(px: int, obs: seq<Obstacle>, i: nat, t: seq<Obstacle>)
    requires i < |obs| && !Hits(px, Fall(obs[i]))
    ensures Fall(obs[i]).y > CANVAS_HEIGHT as real ==>
      Pass(px, obs[..i + 1]).Append(t) == Pass(px, obs[..i]).Append(t)
    ensures Fall(obs[i]).y <= CANVAS_HEIGHT as real ==>
      Pass(px, obs[..i + 1]).Append(t) == Pass(px, obs[..i]).Append([Fall(obs[i])] + t)
  {
    assert obs[..i + 1][..i] == obs[..i];
    var r := Pass(px, obs[..i]);
    assert r.obstacles + [] + t == r.obstacles + t;
    assert r.obstacles + [Fall(obs[i])] + t == r.obstacles + ([Fall(obs[i])] + t);
  }

  /** Removing the obstacle at `i` keeps the part before it and what came after it. */
  lemma CutAt(obs: seq<Obstacle>, i: nat)
    requires i < |obs|
    ensures (obs[..i] + obs[i + 1..])[..i] == obs[..i]
    ensures (obs[..i] + obs[i + 1..])[i..] == obs[i + 1..]
  {
  }

  /** Replacing the obstacle at `i` keeps the part before it and puts the new one ahead of the rest. */
  lemma SetAt(obs: seq<Obstacle>, i: nat, moved: Obstacle)
    requires i < |obs|
    ensures obs[i := moved][..i] == obs[..i]
    ensures obs[i := moved][i..] == [moved] + obs[i + 1..]
  {
  }

  /**
   * The frame's loop over the obstacles, from the last index down to 0: an
   * obstacle past the bottom edge is spliced out, one that hits stops the
   * loop. The result is what `Pass` says.
   */
  method RunPass(px: int, obstacles: seq<Obstacle>) returns (crashed: bool, obs: seq<Obstacle>)
    ensures (if crashed then Crashed(obs) else Clear(obs)) == Pass(px, obstacles)
  {
    obs := obstacles;
    var j := |obs|;
    assert obstacles[..j] == obstacles && obs[j..] == [];
    assert Pass(px, obstacles).obstacles + [] == Pass(px, obstacles).obstacles;
    while j > 0
      invariant 0 <= j <= |obs| && j <= |obstacles|
      invariant obs[..j] == obstacles[..j]
      invariant Pass(px, obstacles) == Pass(px, obstacles[..j]).Append(obs[j..])
    {
      var i := j - 1;
      var moved := Fall(obs[i]);
      assert obstacles[i] == obs[i];
      if Hits(px, moved) {
        PassStepHit(px, obstacles, i);
        obs := obs[i := moved];
        assert obs == obstacles[..i] + [moved] + obs[j..];
        return true, obs;
      }
      PassStepMiss(px, obstacles, i, obs[j..]);
      if moved.y > CANVAS_HEIGHT as real {
        CutAt(obs, i);
        obs := obs[..i] + obs[i + 1..];
      } else {
        SetAt(obs, i, moved);
        obs := obs[i := moved];
      }
      j := i;
    }
    assert obs[0..] == obs;
    assert obstacles[..0] == [];
    return false, obs;
  }

  // ---------------------------------------------------------------------
  // The nickname

  /** The name button: the trimmed input cut to 15 characters, or the default name when that is empty. */
  function RocketName(raw: string): (name: string)
    ensures 1 <= |name| <= MAX_NAME_LENGTH
    ensures Nickname.Trim(raw) == [] ==> name == DEFAULT_NAME
    ensures Nickname.Trim(raw) != [] ==>
      && |name| == (if |Nickname.Trim(raw)| < MAX_NAME_LENGTH then |Nickname.Trim(raw)| else MAX_NAME_LENGTH)
      && name == Nickname.Trim(raw)[..|name|]
  {
    var t := Nickname.Trim(raw);
    var cut := if |t| <= MAX_NAME_LENGTH then t else t[..MAX_NAME_LENGTH];
    if cut == [] then DEFAULT_NAME else cut
  }

  // ---------------------------------------------------------------------
  // The game

  class Game {
    var frames: int
    var isGameRunning: bool
    var nickname: string
    /** The keys currently held down. */
    var held: set<string>
    var playerX: int
    var obstacles: seq<Obstacle>
    /** The persisted board, as decoded from storage. */
    var stored: seq<Entry>

    ghost predicate Valid()
      reads this
    {
      frames >= 0 && OnTrack(playerX)
    }

    /** The shown score: whole points, one per ten frames. */
    function Score(): int
      reads this
    {
      frames / FRAMES_PER_POINT
    }

    /** The page's initial state over whatever board is stored. */
    constructor (board: seq<Entry>)
      ensures Valid()
      ensures frames == 0 && !isGameRunning && nickname == DEFAULT_NAME && held == {}
      ensures playerX == START_X && obstacles == [] && stored == board
    {
      frames, isGameRunning, nickname, held := 0, false, DEFAULT_NAME, {};
      playerX, obstacles, stored := START_X, [], board;
    }

    method SubmitNickname(raw: string)
      modifies this`nickname
      ensures nickname == RocketName(raw)
    {
      nickname := RocketName(raw);
    }

    method KeyDown(key: string)
      modifies this`held
      ensures held == old(held) + {key}
    {
      held := held + {key};
    }

    method KeyUp(key: string)
      modifies this`held
      ensures held == old(held) - {key}
    {
      held := held - {key};
    }

    function LeftHeld(): bool
      reads this
    {
      "ArrowLeft" in held || "a" in held
    }

    function RightHeld(): bool
      reads this
    {
      "ArrowRight" in held || "d" in held
    }

    method ResetGameState()
      modifies this`frames, this`obstacles, this`playerX
      ensures Valid()
      ensures frames == 0 && obstacles == [] && playerX == START_X
    {
      frames := 0;
      obstacles := [];
      playerX := START_X;
    }

    /** Record the whole points reached on the board. */
    method SaveScore()
      modifies this`stored
      ensures stored == Submit(Descending, MAX_LEADERBOARD, old(stored), Entry(nickname, Score()))
      ensures Sorted(Descending, stored) && |stored| <= MAX_LEADERBOARD
      ensures TopScore(stored) >= Score()
    {
      stored := Submit(Descending, MAX_LEADERBOARD, stored, Entry(nickname, Score()));
      SubmitSorted(Descending, MAX_LEADERBOARD, old(stored), Entry(nickname, Score()));
      TopScoreAfterSubmit(MAX_LEADERBOARD, old(stored), Entry(nickname, Score()));
    }

    method EndGame()
      modifies this`isGameRunning, this`stored
      ensures !isGameRunning
      ensures stored == Submit(Descending, MAX_LEADERBOARD, old(stored), Entry(nickname, Score()))
    {
      isGameRunning := false;
      SaveScore();
    }

    /**
     * One animation frame of a running round: the ship moves, an obstacle
     * may spawn, the pass over the obstacles runs as `Pass` says, and a
     * frame without a hit adds one to the frames survived; a hit ends the
     * round and records the score without counting the frame. Outside a
     * round a frame does nothing.
     */
    method Update(roll: real, rx: real, rs: real)
      requires Valid() && 0.0 <= rx < 1.0 && 0.0 <= rs < 1.0
      modifies this`playerX, this`obstacles, this`frames, this`isGameRunning, this`stored
      ensures Valid()
      ensures !old(isGameRunning) ==> unchanged(this)
      ensures old(isGameRunning) ==>
        && playerX == Move(old(playerX), LeftHeld(), RightHeld())
        && var r := Pass(playerX, Spawn(old(obstacles), roll, rx, rs));
        && obstacles == r.obstacles
        && isGameRunning == r.Clear?
        && frames == old(frames) + (if r.Clear? then 1 else 0)
        && stored == if r.Crashed? then Submit(Descending, MAX_LEADERBOARD, old(stored), Entry(nickname, Score()))
                     else old(stored)
    {
      if !isGameRunning {
        return;
      }
      var left, right := LeftHeld(), RightHeld();
      var newX := playerX;
      if left && newX > 0 {
        newX := newX - PLAYER_SPEED;
      }
      if right && newX < CANVAS_WIDTH - PLAYER_SIZE {
        newX := newX + PLAYER_SPEED;
      }
      assert newX == Move(playerX, left, right);
      MoveStaysOnTrack(playerX, left, right);

      var spawned := obstacles;
      if roll < SPAWN_RATE {
        spawned := spawned + [NewObstacle(rx, rs)];
      }
      assert spawned == Spawn(obstacles, roll, rx, rs);

      var crashed, obs := RunPass(newX, spawned);
      playerX := newX;
      obstacles := obs;
      if crashed {
        EndGame();
      } else {
        frames := frames + 1;
      }
    }

    /**
     * The round and play-again buttons: reset, start running, and run the
     * first frame at once.
     */
    method StartRound(roll: real, rx: real, rs: real)
      requires 0.0 <= rx < 1.0 && 0.0 <= rs < 1.0
      modifies this`playerX, this`obstacles, this`frames, this`isGameRunning, this`stored
      ensures Valid()
      ensures playerX == Move(START_X, LeftHeld(), RightHeld())
      ensures var r := Pass(playerX, Spawn([], roll, rx, rs));
        && obstacles == r.obstacles && isGameRunning && frames == 1 && stored == old(stored)
    {
      ResetGameState();
      isGameRunning := true;
      Update(roll, rx, rs);
      var spawned := Spawn([], roll, rx, rs);
      assert spawned == [] || spawned == [NewObstacle(rx, rs)];
      NewObstacleClear(rx, rs, playerX);
      PassCrashIff(playerX, spawned);
    }
  }
}
