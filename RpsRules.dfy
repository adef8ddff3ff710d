/**
 * The rules of rock-paper-scissors and the first version of the game, which
 * only keeps a running tally of rounds won by each side.
 */
module RpsRules {

  datatype Choice = Rock | Paper | Scissors

  datatype Outcome = Win | Lose | Draw

  /** The computer picks from this list, in this order. */
  const CHOICES: seq<Choice> := [Rock, Paper, Scissors]

  /**
   * The computer's pick from one value `r` of the random generator,
   * 0 <= r < 1. The draw is uniform: the unit interval is cut into three
   * equal thirds, and rock, paper and scissors are picked on the first,
   * second and third of them.
   */
  function ComputerChoice(r: real): (c: Choice)
    requires 0.0 <= r < 1.0
    ensures c == Rock <==> r < 1.0 / 3.0
    ensures c == Paper <==> 1.0 / 3.0 <= r < 2.0 / 3.0
    ensures c == Scissors <==> 2.0 / 3.0 <= r
  {
    var k := (r * |CHOICES| as real).Floor;
    assert k as real <= r * 3.0 < k as real + 1.0;
    assert 0 <= k < 3;
    assert k == 0 <==> r < 1.0 / 3.0;
    assert k == 2 <==> 2.0 / 3.0 <= r;
    CHOICES[k]
  }

  /**
   * The outcome of a round from the player's side: equal picks draw, and
   * otherwise the player wins exactly against the one pick its own pick
   * beats.
   */
  function DetermineWinner(player: Choice, computer: Choice): (r: Outcome)
    ensures r == Draw <==> player == computer
    ensures r == Win <==> computer == Beaten(player)
  {
    if player == computer then Draw
    else match player
      case Rock => if computer == Scissors then Win else Lose
      case Paper => if computer == Rock then Win else Lose
      case Scissors => if computer == Paper then Win else Lose
  }

  /** The pick that `c` beats. */
  function Beaten(c: Choice): Choice
  {
    match c
    case Rock => Scissors
    case Paper => Rock
    case Scissors => Paper
  }

  /** Swapping the two sides turns a win into a loss and a loss into a win. */
  lemma WinnerAntisymmetric(p: Choice, c: Choice)
    ensures DetermineWinner(p, c) == Win <==> DetermineWinner(c, p) == Lose
    ensures DetermineWinner(p, c) == Draw <==> DetermineWinner(c, p) == Draw
  {
  }

  /**
   * Each pick beats exactly one other pick and loses to exactly one, the
   * remaining one: the pick that beats it.
   */
  lemma WinsAgainstExactlyOne(p: Choice, c: Choice)
    ensures Beaten(p) != p && Beaten(Beaten(p)) != p
    ensures DetermineWinner(p, c) == Lose <==> p == Beaten(c)
    ensures DetermineWinner(p, c) == Lose <==> c == Beaten(Beaten(p))
  {
  }

  /** The running tally of the first version of the game. */
  class Score {
    var player: int
    var computer: int

    constructor ()
      ensures player == 0 && computer == 0
    {
      player, computer := 0, 0;
    }

    /**
     * One round: the computer picks, and the winner's tally goes up by one;
     * a draw changes nothing.
     */
    method PlayRound(choice: Choice, r: real) returns (computerChoice: Choice, result: Outcome)
      requires 0.0 <= r < 1.0
      modifies this
      ensures computerChoice == ComputerChoice(r)
      ensures result == DetermineWinner(choice, computerChoice)
      ensures player == old(player) + (if result == Win then 1 else 0)
      ensures computer == old(computer) + (if result == Lose then 1 else 0)
    {
      computerChoice := ComputerChoice(r);
      result := DetermineWinner(choice, computerChoice);
      match result
      case Win => player := player + 1;
      case Lose => computer := computer + 1;
      case Draw =>
    }

    method ResetScore()
      modifies this
      ensures player == 0 && computer == 0
    {
      player := 0;
      computer := 0;
    }
  }
}
