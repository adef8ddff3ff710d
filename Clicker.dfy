/**
 * The click-speed game: a ten-second countdown during which every click on
 * the big button adds one to the score; when the countdown reaches zero the
 * round's score goes onto a descending top-10 board.
 *
 * The one-second interval timer is the method `Tick`, called once per
 * second while a round is on (the interval exists exactly while `isPlaying`).
 */
module Clicker {

  import opened Leaderboard
  import Nickname

  const GAME_DURATION: int := 10
  const MAX_LEADERBOARD: nat := 10

  class Game {
    var score: int
    var timeLeft: int
    var nickname: string
    var isPlaying: bool
    /** The persisted board, as decoded from storage. */
    var stored: seq<Entry>

    ghost predicate Valid()
      reads this
    {
      score >= 0 && (isPlaying ==> 1 <= timeLeft <= GAME_DURATION)
    }

    /** The page's initial state over whatever board is stored. */
    constructor (board: seq<Entry>)
      ensures Valid()
      ensures score == 0 && timeLeft == GAME_DURATION && nickname == "" && !isPlaying
      ensures stored == board
    {
      score, timeLeft, nickname, isPlaying := 0, GAME_DURATION, "", false;
      stored := board;
    }

    /** The start button: store the trimmed nickname if it is long enough. */
    method SubmitNickname(raw: string) returns (accepted: bool)
      modifies this`nickname
      ensures accepted <==> |Nickname.Trim(raw)| >= Nickname.MIN_NICKNAME_LENGTH
      ensures nickname == if accepted then Nickname.Trim(raw) else old(nickname)
    {
      var gate := Nickname.Gate(raw, Nickname.MIN_NICKNAME_LENGTH);
      accepted := gate.Some?;
      if accepted {
        nickname := gate.value;
      }
    }

    method StartRound()
      modifies this`score, this`timeLeft, this`isPlaying
      ensures Valid()
      ensures score == 0 && timeLeft == GAME_DURATION && isPlaying
    {
      score := 0;
      timeLeft := GAME_DURATION;
      isPlaying := true;
    }

    /** The big button: one more click, but only while a round is on. */
    method Click()
      requires Valid()
      modifies this`score
      ensures Valid()
      ensures score == if isPlaying then old(score) + 1 else old(score)
    {
      if !isPlaying {
        return;
      }
      score := score + 1;
    }

    /** End of a round: stop, and put the score on the board. */
    method EndGame()
      requires score >= 0
      modifies this`isPlaying, this`stored
      ensures Valid() && !isPlaying
      ensures stored == Submit(Descending, MAX_LEADERBOARD, old(stored), Entry(nickname, score))
      ensures Sorted(Descending, stored) && |stored| <= MAX_LEADERBOARD
      ensures HighScore() >= score
      ensures var k := CountAtLeast(Descending, old(stored), score);
        k < MAX_LEADERBOARD <==> k < |stored| && stored[k] == Entry(nickname, score)
    {
      isPlaying := false;
      stored := Submit(Descending, MAX_LEADERBOARD, stored, Entry(nickname, score));
      SubmitSorted(Descending, MAX_LEADERBOARD, old(stored), Entry(nickname, score));
      TopScoreAfterSubmit(MAX_LEADERBOARD, old(stored), Entry(nickname, score));
      SubmitPlacesEntry(Descending, MAX_LEADERBOARD, old(stored), Entry(nickname, score));
    }

    /** One firing of the one-second interval. */
    method Tick()
      requires Valid() && isPlaying
      modifies this`timeLeft, this`isPlaying, this`stored
      ensures Valid()
      ensures timeLeft == old(timeLeft) - 1
      ensures isPlaying <==> timeLeft > 0
      ensures stored == if isPlaying then old(stored)
                        else Submit(Descending, MAX_LEADERBOARD, old(stored), Entry(nickname, score))
    {
      timeLeft := timeLeft - 1;
      if timeLeft <= 0 {
        EndGame();
      }
    }

    /** The high score shown next to the board. */
    function HighScore(): int
      reads this
    {
      TopScore(stored)
    }
  }
}
