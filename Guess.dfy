/**
 * The number-guessing game with a player name and a board: a secret between
 * 1 and 100, five attempts, a "too low" / "too high" hint after each miss.
 * A win is scored by the number of attempts it took (fewer is better) and
 * goes onto an ascending top-5 board; the best (lowest) winning score so far
 * is kept apart as the high score.
 */
module Guess {

  import opened Optional
  import opened Leaderboard
  import Nickname

  const LOWEST: int := 1
  const HIGHEST: int := 100
  const MAX_ATTEMPTS: nat := 5
  const MAX_LEADERBOARD: nat := 5

  /** What a submitted guess leads to. */
  datatype Verdict =
    | Ignored     // no round on, or no number in range: nothing happens
    | Rejected    // an out-of-range number answered with a message; only the
                  // older page (GuessLegacy.Game.HandleGuess) does this, the
                  // current one (Game.SubmitGuess) ignores such a guess
    | Won
    | Lost
    | TooLow
    | TooHigh

  /** The secret drawn from one value `r` of the random generator, 0 <= r < 1. */
  function SecretFrom(r: real): (secret: int)
    requires 0.0 <= r < 1.0
    ensures LOWEST <= secret <= HIGHEST
  {
    (r * 100.0).Floor + 1
  }

  /** Every secret in range can be drawn: the draw misses no number. */
  lemma SecretFromCovers(n: int)
    requires LOWEST <= n <= HIGHEST
    ensures 0.0 <= (n - 1) as real / 100.0 < 1.0
    ensures SecretFrom((n - 1) as real / 100.0) == n
  {
    assert ((n - 1) as real / 100.0) * 100.0 == (n - 1) as real;
  }

  /** A guess counts only when it is a number from 1 to 100. */
  predicate InRange(guess: Option<int>)
  {
    guess.Some? && LOWEST <= guess.value <= HIGHEST
  }

  /** The lower of the stored high score and a new winning score; 0 means "none yet". */
  function Best(high: int, score: int): (r: int)
    ensures high == 0 ==> r == score
    ensures high != 0 ==> r <= high && r <= score && (r == high || r == score)
  {
    if high == 0 || score < high then score else high
  }

  class Game {
    var playerName: string
    var secret: int
    var attemptsLeft: int
    var totalAttemptsUsed: int
    var gameActive: bool
    var highScore: int
    /** The persisted board, as decoded from storage. */
    var stored: seq<Entry>

    /**
     * Every counted attempt moves one unit from `attemptsLeft` to
     * `totalAttemptsUsed`; a round in progress has an attempt left and a
     * secret in range.
     */
    ghost predicate Valid()
      reads this
    {
      && attemptsLeft >= 0 && totalAttemptsUsed >= 0
      && attemptsLeft + totalAttemptsUsed == MAX_ATTEMPTS
      && (gameActive ==> attemptsLeft >= 1 && LOWEST <= secret <= HIGHEST)
    }

    /** The page's initial state over the stored board and high score. */
    constructor (board: seq<Entry>, storedHigh: int)
      ensures Valid()
      ensures playerName == "" && secret == 0 && attemptsLeft == MAX_ATTEMPTS
      ensures totalAttemptsUsed == 0 && !gameActive
      ensures highScore == storedHigh && stored == board
    {
      playerName, secret := "", 0;
      attemptsLeft, totalAttemptsUsed, gameActive := MAX_ATTEMPTS, 0, false;
      highScore, stored := storedHigh, board;
    }

    /** The name button: any name that is not blank after trimming. */
    method SubmitName(raw: string) returns (accepted: bool)
      modifies this`playerName
      ensures accepted <==> Nickname.Trim(raw) != []
      ensures playerName == if accepted then Nickname.Trim(raw) else old(playerName)
    {
      var gate := Nickname.Gate(raw, 1);
      accepted := gate.Some?;
      if accepted {
        playerName := gate.value;
      }
    }

    /** A new round (start and play-again buttons). */
    method InitGame(r: real)
      requires 0.0 <= r < 1.0
      modifies this`secret, this`attemptsLeft, this`totalAttemptsUsed, this`gameActive
      ensures Valid() && gameActive
      ensures secret == SecretFrom(r)
      ensures attemptsLeft == MAX_ATTEMPTS && totalAttemptsUsed == 0
    {
      secret := SecretFrom(r);
      attemptsLeft := MAX_ATTEMPTS;
      totalAttemptsUsed := 0;
      gameActive := true;
    }

    /**
     * The guess form. `guess` is the parsed input (None for NaN). A guess
     * outside a round or outside 1..100 changes nothing. Otherwise it uses up
     * one attempt; it wins exactly when it is the secret, loses when it
     * misses with the last attempt, and otherwise tells on which side of the
     * secret it lies. Only a win is recorded, scored by the attempts used.
     */
    method SubmitGuess(guess: Option<int>) returns (v: Verdict)
      requires Valid()
      modifies this`attemptsLeft, this`totalAttemptsUsed, this`gameActive, this`stored, this`highScore
      ensures Valid()
      ensures !old(gameActive) || !InRange(guess) ==>
        v == Ignored && attemptsLeft == old(attemptsLeft) && totalAttemptsUsed == old(totalAttemptsUsed)
        && gameActive == old(gameActive) && stored == old(stored) && highScore == old(highScore)
      ensures old(gameActive) && InRange(guess) ==>
        && attemptsLeft == old(attemptsLeft) - 1
        && totalAttemptsUsed == old(totalAttemptsUsed) + 1
        && (v == Won <==> guess.value == secret)
        && (v == Lost <==> guess.value != secret && attemptsLeft == 0)
        && (v == TooLow <==> guess.value < secret && attemptsLeft > 0)
        && (v == TooHigh <==> guess.value > secret && attemptsLeft > 0)
        && (gameActive <==> v == TooLow || v == TooHigh)
      ensures v == Won ==> 1 <= totalAttemptsUsed <= MAX_ATTEMPTS
      ensures stored == if v == Won then Submit(Ascending, MAX_LEADERBOARD, old(stored), Entry(playerName, totalAttemptsUsed))
                        else old(stored)
      ensures highScore == if v == Won then Best(old(highScore), totalAttemptsUsed) else old(highScore)
    {
      if !gameActive {
        return Ignored;
      }
      if !InRange(guess) {
        return Ignored;
      }
      var g := guess.value;
      attemptsLeft := attemptsLeft - 1;
      totalAttemptsUsed := totalAttemptsUsed + 1;
      if g == secret {
        EndGame(true);
        v := Won;
      } else if attemptsLeft == 0 {
        EndGame(false);
        v := Lost;
      } else {
        v := if g < secret then TooLow else TooHigh;
      }
    }

    /** End of a round; a win is saved with the attempts it took. */
    method EndGame(isWin: bool)
      requires attemptsLeft >= 0 && totalAttemptsUsed >= 0
      requires attemptsLeft + totalAttemptsUsed == MAX_ATTEMPTS
      modifies this`gameActive, this`stored, this`highScore
      ensures Valid() && !gameActive
      ensures stored == if isWin then Submit(Ascending, MAX_LEADERBOARD, old(stored), Entry(playerName, totalAttemptsUsed))
                        else old(stored)
      ensures highScore == if isWin then Best(old(highScore), totalAttemptsUsed) else old(highScore)
    {
      gameActive := false;
      if isWin {
        SaveScore(playerName, totalAttemptsUsed);
      }
    }

    /**
     * Record a winning score: onto the ascending board, cut to five, and
     * into the high score when there is none yet or when it is lower.
     */
    method SaveScore(name: string, score: int)
      modifies this`stored, this`highScore
      ensures stored == Submit(Ascending, MAX_LEADERBOARD, old(stored), Entry(name, score))
      ensures Sorted(Ascending, stored) && |stored| <= MAX_LEADERBOARD
      ensures highScore == Best(old(highScore), score)
    {
      stored := Submit(Ascending, MAX_LEADERBOARD, stored, Entry(name, score));
      SubmitSorted(Ascending, MAX_LEADERBOARD, old(stored), Entry(name, score));
      if highScore == 0 || score < highScore {
        highScore := score;
      }
    }
  }

  /** The high score after recording the winning scores `wins` one by one. */
  function HighAfter(high: int, wins: seq<int>): int
    decreases wins
  {
    if wins == [] then high else HighAfter(Best(high, wins[0]), wins[1..])
  }

  function MinOf(wins: seq<int>): int
    requires wins != []
  {
    if |wins| == 1 then wins[0] else Min(wins[0], MinOf(wins[1..]))
  }

  function Min(a: int, b: int): int { if a <= b then a else b }

  /**
   * Over a run of wins (each scored at least 1), the high score ends as the
   * lowest winning score, or the stored one if that was lower.
   */
  lemma {:induction false} HighAfterIsMin(high: int, wins: seq<int>)
    requires high >= 0 && wins != []
    requires forall i :: 0 <= i < |wins| ==> wins[i] >= 1
    ensures high == 0 ==> HighAfter(high, wins) == MinOf(wins)
    ensures high != 0 ==> HighAfter(high, wins) == Min(high, MinOf(wins))
    decreases wins
  {
    if |wins| > 1 {
      HighAfterIsMin(Best(high, wins[0]), wins[1..]);
    }
  }
}
