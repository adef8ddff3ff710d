/**
 * The falling-objects game: the player's ship sits on the bottom edge of a
 * 480 x 320 field and moves sideways in steps of 10; objects 20 wide fall
 * from above. Every object that falls past the bottom edge scores one point;
 * the first object that touches the ship ends the round, and the score goes
 * onto a descending top-10 board.
 *
 * Each animation frame is the method `GameLoop`; each firing of the spawn
 * interval is `CreateFallingObject`; a key press is `HandleKeyDown`.
 */
module Dodge {

  import opened Leaderboard
  import Nickname
  import Geometry

  const GAME_WIDTH: int := 480
  const GAME_HEIGHT: int := 320
  const PLAYER_SPEED: int := 10
  const PLAYER_SIZE: int := 40
  const OBJECT_SIZE: int := 20
  const MAX_LEADERBOARD: nat := 10
  /** The ship's left edge at the start of a round: centred. */
  const START_X: int := GAME_WIDTH / 2 - 20
  /** The rightmost left edge the ship can reach. */
  const MAX_X: int := GAME_WIDTH - PLAYER_SIZE

  /** A falling object: its left edge, its top edge and its fall per frame. */
  datatype Obj = Obj(x: int, y: real, speed: real)

  /** The object after one frame of falling (the rocket game has the same rule for its obstacles). */
  function Fall(o: Obj): Obj
  {
    o.(y := o.y + o.speed)
  }

  /** The collision test of a frame, with the ship's left edge at `px`. */
  predicate Hits(px: int, o: Obj)
  {
    && o.y + OBJECT_SIZE as real > (GAME_HEIGHT - PLAYER_SIZE) as real
    && o.y < GAME_HEIGHT as real
    && (o.x + OBJECT_SIZE) as real > px as real
    && o.x as real < (px + PLAYER_SIZE) as real
  }

  function ShipBox(px: int): Geometry.Box
  {
    Geometry.Box(px as real, (GAME_HEIGHT - PLAYER_SIZE) as real, PLAYER_SIZE as real, PLAYER_SIZE as real)
  }

  function ObjBox(o: Obj): Geometry.Box
  {
    Geometry.Box(o.x as real, o.y, OBJECT_SIZE as real, OBJECT_SIZE as real)
  }

  /**
   * The collision test is the overlap of the object's square with the
   * ship's square, so an object hits exactly when some point lies strictly
   * inside both: touching along an edge is not a hit.
   */
  lemma HitsIsOverlap(px: int, o: Obj)
    ensures Hits(px, o) <==> Geometry.Overlaps(ObjBox(o), ShipBox(px))
    ensures Hits(px, o) <==> exists x, y :: Geometry.Inside(x, y, ObjBox(o)) && Geometry.Inside(x, y, ShipBox(px))
  {
    Geometry.OverlapsIffSharedPoint(ObjBox(o), ShipBox(px));
  }

  /** The object the spawn interval creates from two values of the random generator. */
  function NewObject(rx: real, rs: real): (o: Obj)
    requires 0.0 <= rx < 1.0 && 0.0 <= rs < 1.0
    ensures 0 <= o.x < GAME_WIDTH - OBJECT_SIZE
    ensures o.y == -(OBJECT_SIZE as real)
    ensures 1.5 <= o.speed < 3.5
  {
    Obj((rx * (GAME_WIDTH - OBJECT_SIZE) as real).Floor, -20.0, rs * 2.0 + 1.5)
  }

  /** A new object starts wholly above the field and cannot hit the ship before it falls. */
  lemma NewObjectClear(rx: real, rs: real, px: int)
    requires 0.0 <= rx < 1.0 && 0.0 <= rs < 1.0
    ensures !Hits(px, NewObject(rx, rs))
  {
  }

  // ---------------------------------------------------------------------
  // One animation frame, as a function of the objects

  /** What a frame does to the objects: whether it ended the round, the objects after it, how many fell off. */
  datatype Sweep = Sweep(crashed: bool, objects: seq<Obj>, removed: nat)

  /**
   * The frame's pass over the objects in order: each object falls; if it
   * then hits the ship the pass stops there (the rest do not move);
   * otherwise it is dropped and counted if it is past the bottom edge.
   */
  function Frame(px: int, objs: seq<Obj>): (r: Sweep)
    ensures |r.objects| + r.removed == |objs|
  {
    if objs == [] then Sweep(false, [], 0)
    else
      var o := Fall(objs[0]);
      if Hits(px, o) then Sweep(true, [o] + objs[1..], 0)
      else
        var rest := Frame(px, objs[1..]);
        if o.y > GAME_HEIGHT as real then Sweep(rest.crashed, rest.objects, rest.removed + 1)
        else Sweep(rest.crashed, [o] + rest.objects, rest.removed)
  }

  /** `r` after `done` objects were already kept and `n` dropped. */
  function Prefixed(done: seq<Obj>, n: nat, r: Sweep): Sweep
  {
    Sweep(r.crashed, done + r.objects, r.removed + n)
  }

  /** Every object after one frame of falling, in order (the rocket game's `Fallen` is the same). */
  function Fallen(objs: seq<Obj>): seq<Obj>
  {
    seq(|objs|, i requires 0 <= i < |objs| => Fall(objs[i]))
  }

  /** The objects not yet past the bottom edge, in order (the rocket game's `OnScreen` is the same filter with its own field height). */
  function OnScreen(objs: seq<Obj>): (r: seq<Obj>)
    ensures |r| <= |objs|
    ensures forall o :: o in r ==> o in objs && o.y <= GAME_HEIGHT as real
    ensures forall o :: o in objs && o.y <= GAME_HEIGHT as real ==> o in r
  {
    if objs == [] then []
    else if objs[0].y > GAME_HEIGHT as real then OnScreen(objs[1..])
    else [objs[0]] + OnScreen(objs[1..])
  }

  /**
   * Keeping the on-field objects distributes over concatenation, so the kept
   * ones stay in order (the rocket game's `OnScreenAppend` is the same fact).
   */
  lemma {:induction false} OnScreenAppend(s: seq<Obj>, t: seq<Obj>)
    ensures OnScreen(s + t) == OnScreen(s) + OnScreen(t)
  {
    if s != [] {
      OnScreenAppend(s[1..], t);
      assert (s + t)[1..] == s[1..] + t;
    } else {
      assert s + t == t;
    }
  }

  /** A frame ends the round exactly when some object, after falling, touches the ship. */
  lemma {:induction false} FrameCrashIff(px: int, objs: seq<Obj>)
    ensures Frame(px, objs).crashed <==> exists i :: 0 <= i < |objs| && Hits(px, Fall(objs[i]))
  {
    if objs != [] {
      FrameCrashIff(px, objs[1..]);
      if exists i :: 0 <= i < |objs[1..]| && Hits(px, Fall(objs[1..][i])) {
        var i :| 0 <= i < |objs[1..]| && Hits(px, Fall(objs[1..][i]));
        assert Hits(px, Fall(objs[i + 1]));
      }
      if exists i :: 0 <= i < |objs| && Hits(px, Fall(objs[i])) {
        var i :| 0 <= i < |objs| && Hits(px, Fall(objs[i]));
        assert i == 0 || Hits(px, Fall(objs[1..][i - 1]));
      }
    }
  }

  /**
   * A frame without a hit moves every object down by its speed and keeps,
   * in order, exactly those still on the field; the others are the points
   * scored.
   */
  lemma {:induction false} FrameWithoutHit(px: int, objs: seq<Obj>)
    requires !Frame(px, objs).crashed
    ensures Frame(px, objs).objects == OnScreen(Fallen(objs))
    ensures Frame(px, objs).removed == |objs| - |OnScreen(Fallen(objs))|
  {
    if objs != [] {
      FrameWithoutHit(px, objs[1..]);
      var f := Fallen(objs);
      assert f[0] == Fall(objs[0]);
      assert f[1..] == Fallen(objs[1..]);
    }
  }

  /**
   * A frame whose first hit is the object at `h`: the objects before it
   * fell, and those past the bottom edge were removed and counted; the
   * hitting object fell; the objects after it did not move.
   */
  lemma {:induction false} FrameAtFirstHit(px: int, objs: seq<Obj>, h: nat)
    requires h < |objs| && Hits(px, Fall(objs[h]))
    requires forall i :: 0 <= i < h ==> !Hits(px, Fall(objs[i]))
    ensures |OnScreen(Fallen(objs[..h]))| <= h
    ensures Frame(px, objs) == Sweep(true, OnScreen(Fallen(objs[..h])) + ([Fall(objs[h])] + objs[h + 1..]),
                                     h - |OnScreen(Fallen(objs[..h]))|)
  {
    if h == 0 {
      assert Fallen(objs[..0]) == [];
    } else {
      var o := Fall(objs[0]);
      assert !Hits(px, o);
      var tail := objs[1..];
      assert tail[h - 1] == objs[h] && tail[h..] == objs[h + 1..];
      FrameAtFirstHit(px, tail, h - 1);
      var g := Fallen(tail[..h - 1]);
      FallenCons(objs, h);
      OnScreenAppend([o], g);
      assert OnScreen([o]) == (if o.y > GAME_HEIGHT as real then [] else [o]) by {
        assert [o][1..] == [];
      }
      var kept := OnScreen(g);
      var after := [Fall(objs[h])] + objs[h + 1..];
      assert [Fall(tail[h - 1])] + tail[h - 1 + 1..] == after;
      assert Frame(px, tail) == Sweep(true, kept + after, h - 1 - |kept|);
      ConsAppend(o, kept, after);
    }
  }

  lemma ConsAppend(o: Obj, s: seq<Obj>, t: seq<Obj>)
    ensures [o] + (s + t) == ([o] + s) + t
  {
  }

  /** Falling the first `h` objects is falling the first one, then the next `h - 1`. */
  lemma FallenCons(objs: seq<Obj>, h: nat)
    requires 0 < h <= |objs|
    ensures Fallen(objs[..h]) == [Fall(objs[0])] + Fallen(objs[1..][..h - 1])
  {
    var f, g := Fallen(objs[..h]), Fallen(objs[1..][..h - 1]);
    assert forall i :: 0 <= i < |g| ==> f[i + 1] == g[i];
  }

  /** One step of the pass: the object at `k` falls and hits. */
  lemma FrameStepHit(px: int, objs: seq<Obj>, k: nat)
    requires k < |objs| && Hits(px, Fall(objs[k]))
    ensures Frame(px, objs[k..]) == Sweep(true, [Fall(objs[k])] + objs[k + 1..], 0)
  {
    assert objs[k..][1..] == objs[k + 1..];
  }

  /** One step of the pass: the object at `k` falls, misses, and is dropped or kept. */
  lemma FrameStepMiss(px: int, objs: seq<Obj>, k: nat, done: seq<Obj>, n: nat)
    requires k < |objs| && !Hits(px, Fall(objs[k]))
    ensures Fall(objs[k]).y > GAME_HEIGHT as real ==>
      Prefixed(done, n, Frame(px, objs[k..])) == Prefixed(done, n + 1, Frame(px, objs[k + 1..]))
    ensures Fall(objs[k]).y <= GAME_HEIGHT as real ==>
      Prefixed(done, n, Frame(px, objs[k..])) == Prefixed(done + [Fall(objs[k])], n, Frame(px, objs[k + 1..]))
  {
    assert objs[k..][1..] == objs[k + 1..];
    var rest := Frame(px, objs[k + 1..]);
    assert done + ([Fall(objs[k])] + rest.objects) == (done + [Fall(objs[k])]) + rest.objects;
  }

  /** Removing the object at `i` leaves the part before it and shifts the rest down. */
  lemma SpliceOut(objs: seq<Obj>, i: nat, objects: seq<Obj>, k: nat)
    requires i < |objs| && k < |objects| && objs[i..] == objects[k..]
    ensures (objs[..i] + objs[i + 1..])[..i] == objs[..i]
    ensures (objs[..i] + objs[i + 1..])[i..] == objects[k + 1..]
  {
    assert objs[i + 1..] == objs[i..][1..];
  }

  /** Replacing the object at `i` extends the part before it by the new object. */
  lemma ReplaceAt(objs: seq<Obj>, i: nat, moved: Obj, objects: seq<Obj>, k: nat)
    requires i < |objs| && k < |objects| && objs[i..] == objects[k..]
    ensures objs[i := moved][..i + 1] == objs[..i] + [moved]
    ensures objs[i := moved][i + 1..] == objects[k + 1..]
  {
    assert objs[i + 1..] == objs[i..][1..];
  }

  /**
   * The frame's loop over the objects: walk forward; an object that falls
   * past the bottom edge is spliced out (the index stays), one that hits
   * stops the loop. The result is what `Frame` says.
   */
  method RunFrame(px: int, objects: seq<Obj>) returns (crashed: bool, objs: seq<Obj>, removed: nat)
    ensures Sweep(crashed, objs, removed) == Frame(px, objects)
  {
    objs := objects;
    removed := 0;
    crashed := false;
    ghost var k := 0;
    var i := 0;
    while i < |objs|
      invariant 0 <= i <= |objs| && 0 <= k <= |objects|
      invariant objs[i..] == objects[k..]
      invariant Frame(px, objects) == Prefixed(objs[..i], removed, Frame(px, objects[k..]))
      decreases |objs| - i
    {
      var moved := Fall(objs[i]);
      assert objects[k] == objs[i] && objects[k + 1..] == objs[i + 1..];
      if Hits(px, moved) {
        FrameStepHit(px, objects, k);
        objs := objs[i := moved];
        assert objs == objs[..i] + ([moved] + objects[k + 1..]);
        crashed := true;
        return;
      }
      FrameStepMiss(px, objects, k, objs[..i], removed);
      if moved.y > GAME_HEIGHT as real {
        SpliceOut(objs, i, objects, k);
        objs := objs[..i] + objs[i + 1..];
        removed := removed + 1;
      } else {
        ReplaceAt(objs, i, moved, objects, k);
        objs := objs[i := moved];
        i := i + 1;
      }
      k := k + 1;
    }
    assert objects[k..] == [];
    assert objs[..i] == objs;
  }

  // ---------------------------------------------------------------------
  // The game

  class Game {
    var playerX: int
    var score: int
    var gameActive: bool
    var nickname: string
    var objects: seq<Obj>
    /** The persisted board, as decoded from storage. */
    var stored: seq<Entry>

    /** The ship stays on the field, on the grid of its steps. */
    ghost predicate Valid()
      reads this
    {
      0 <= playerX <= MAX_X && playerX % PLAYER_SPEED == 0 && score >= 0
    }

    /** The page's initial state over whatever board is stored. */
    constructor (board: seq<Entry>)
      ensures Valid()
      ensures playerX == START_X && score == 0 && !gameActive && nickname == ""
      ensures objects == [] && stored == board
    {
      playerX, score, gameActive, nickname := START_X, 0, false, "";
      objects, stored := [], board;
    }

    /** The start button: store the trimmed nickname if it is long enough. */
    method SubmitNickname(raw: string) returns (accepted: bool)
      modifies this`nickname
      ensures accepted <==> |Nickname.Trim(raw)| >= Nickname.MIN_NICKNAME_LENGTH
      ensures nickname == if accepted then Nickname.Trim(raw) else old(nickname)
    {
      var gate := Nickname.Gate(raw, Nickname.MIN_NICKNAME_LENGTH);
      accepted := gate.Some?;
      if accepted {
        nickname := gate.value;
      }
    }

    /** Clear the field, zero the score, centre the ship. */
    method SetupGame()
      modifies this`objects, this`score, this`playerX
      ensures Valid()
      ensures objects == [] && score == 0 && playerX == START_X
    {
      objects := [];
      score := 0;
      playerX := START_X;
    }

    /** The round and play-again buttons. */
    method StartGameRound()
      modifies this`objects, this`score, this`playerX, this`gameActive
      ensures Valid() && gameActive
      ensures objects == [] && score == 0 && playerX == START_X
    {
      SetupGame();
      gameActive := true;
    }

    /** End of a round, once: stop, and put the score on the board. */
    method EndGame()
      modifies this`gameActive, this`stored
      ensures !gameActive
      ensures stored == if old(gameActive) then Submit(Descending, MAX_LEADERBOARD, old(stored), Entry(nickname, score))
                        else old(stored)
    {
      if !gameActive {
        return;
      }
      gameActive := false;
      stored := Submit(Descending, MAX_LEADERBOARD, stored, Entry(nickname, score));
    }

    /**
     * A key press during a round: left arrow or `a` moves the ship one step
     * left, right arrow or `d` one step right, never past either edge; any
     * other key leaves it where it is.
     */
    method HandleKeyDown(key: string)
      requires Valid()
      modifies this`playerX
      ensures Valid()
      ensures !gameActive || (key != "ArrowLeft" && key != "a" && key != "ArrowRight" && key != "d") ==>
                playerX == old(playerX)
      ensures gameActive && (key == "ArrowLeft" || key == "a") ==>
                playerX == if old(playerX) >= PLAYER_SPEED then old(playerX) - PLAYER_SPEED else 0
      ensures gameActive && key != "ArrowLeft" && key != "a" && (key == "ArrowRight" || key == "d") ==>
                playerX == if old(playerX) + PLAYER_SPEED <= MAX_X then old(playerX) + PLAYER_SPEED else MAX_X
    {
      if !gameActive {
        return;
      }
      var newX := playerX;
      if key == "ArrowLeft" || key == "a" {
        newX := if playerX - PLAYER_SPEED > 0 then playerX - PLAYER_SPEED else 0;
      } else if key == "ArrowRight" || key == "d" {
        newX := if playerX + PLAYER_SPEED < MAX_X then playerX + PLAYER_SPEED else MAX_X;
      }
      playerX := newX;
    }

    /** The spawn interval: a new object at the top of the field, behind all others. */
    method CreateFallingObject(rx: real, rs: real)
      requires 0.0 <= rx < 1.0 && 0.0 <= rs < 1.0
      modifies this`objects
      ensures objects == old(objects) + [NewObject(rx, rs)]
    {
      objects := objects + [NewObject(rx, rs)];
    }

    /**
     * One animation frame during a round does what `Frame` says: the
     * objects become the frame's objects, each one dropped scores a point,
     * and a hit ends the round and records the score reached so far.
     * Outside a round a frame does nothing.
     */
    method GameLoop()
      requires Valid()
      modifies this`objects, this`score, this`gameActive, this`stored
      ensures Valid()
      ensures !old(gameActive) ==> unchanged(this)
      ensures old(gameActive) ==>
        var r := Frame(playerX, old(objects));
        && objects == r.objects
        && score == old(score) + r.removed
        && gameActive == !r.crashed
        && stored == if r.crashed then Submit(Descending, MAX_LEADERBOARD, old(stored), Entry(nickname, score))
                     else old(stored)
    {
      if !gameActive {
        return;
      }
      var crashed, objs, removed := RunFrame(playerX, objects);
      objects := objs;
      score := score + removed;
      if crashed {
        EndGame();
      }
    }

    /** The high score shown beside the board. */
    function HighScore(): int
      reads this
    {
      TopScore(stored)
    }
  }
}
