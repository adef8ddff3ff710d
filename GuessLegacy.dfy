/**
 * The first number-guessing game, without names or a board: the secret is
 * drawn from the range `min`..`max` of its own state, five attempts, a hint
 * after each miss, and a message (but no lost attempt) for input that is
 * not a number in range. A round starts as soon as the page loads.
 */
module GuessLegacy {

  import opened Optional
  import Guess

  const MIN: int := 1
  const MAX: int := 100
  const MAX_ATTEMPTS: nat := 5

  /** The draw as this game writes it: scale to the range width, then shift. */
  function SecretFrom(r: real): (secret: int)
    requires 0.0 <= r < 1.0
    ensures MIN <= secret <= MAX
  {
    (r * MAX as real).Floor + MIN
  }

  /** Both games draw the very same secret from the same random value. */
  lemma SameDrawAsGuess(r: real)
    requires 0.0 <= r < 1.0
    ensures SecretFrom(r) == Guess.SecretFrom(r)
  {
  }

  class Game {
    var secret: int
    var attemptsLeft: int
    var gameActive: bool

    ghost predicate Valid()
      reads this
    {
      0 <= attemptsLeft <= MAX_ATTEMPTS && (gameActive ==> attemptsLeft >= 1 && MIN <= secret <= MAX)
    }

    /** Page load: the game is set up and a round starts at once. */
    constructor (r: real)
      requires 0.0 <= r < 1.0
      ensures Valid() && gameActive
      ensures secret == SecretFrom(r) && attemptsLeft == MAX_ATTEMPTS
    {
      secret, attemptsLeft, gameActive := 0, MAX_ATTEMPTS, true;
      new;
      StartGame(r);
    }

    /** A new round (also the play-again button). */
    method StartGame(r: real)
      requires 0.0 <= r < 1.0
      modifies this
      ensures Valid() && gameActive
      ensures secret == SecretFrom(r) && attemptsLeft == MAX_ATTEMPTS
    {
      secret := SecretFrom(r);
      attemptsLeft := MAX_ATTEMPTS;
      gameActive := true;
    }

    /**
     * The guess form. Nothing happens outside a round. Input that is not a
     * number from `MIN` to `MAX` is answered with a message and costs no
     * attempt. Otherwise one attempt is used; the guess wins exactly when it
     * is the secret, loses when it misses with the last attempt, and
     * otherwise tells on which side of the secret it lies.
     */
    method HandleGuess(guess: Option<int>) returns (v: Guess.Verdict)
      requires Valid()
      modifies this
      ensures Valid() && secret == old(secret)
      ensures !old(gameActive) ==> v == Guess.Ignored && attemptsLeft == old(attemptsLeft) && !gameActive
      ensures old(gameActive) && !Guess.InRange(guess) ==>
        v == Guess.Rejected && attemptsLeft == old(attemptsLeft) && gameActive
      ensures old(gameActive) && Guess.InRange(guess) ==>
        && attemptsLeft == old(attemptsLeft) - 1
        && (v == Guess.Won <==> guess.value == secret)
        && (v == Guess.Lost <==> guess.value != secret && attemptsLeft == 0)
        && (v == Guess.TooLow <==> guess.value < secret && attemptsLeft > 0)
        && (v == Guess.TooHigh <==> guess.value > secret && attemptsLeft > 0)
        && (gameActive <==> v == Guess.TooLow || v == Guess.TooHigh)
    {
      if !gameActive {
        return Guess.Ignored;
      }
      if guess.None? || guess.value < MIN || guess.value > MAX {
        return Guess.Rejected;
      }
      var g := guess.value;
      attemptsLeft := attemptsLeft - 1;
      if g == secret {
        v := Guess.Won;
        EndGame();
      } else if attemptsLeft == 0 {
        v := Guess.Lost;
        EndGame();
      } else if g < secret {
        v := Guess.TooLow;
      } else {
        v := Guess.TooHigh;
      }
    }

    method EndGame()
      modifies this`gameActive
      ensures !gameActive
    {
      gameActive := false;
    }
  }
}
