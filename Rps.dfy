/**
 * The rock-paper-scissors game with a nickname and a board of wins. Rounds
 * are played only after the round has been started; every round the player
 * wins adds one to the player's score and offers it to a descending top-5
 * board that keeps a single record per name, holding that name's best score.
 */
module Rps {

  import opened Optional
  import opened Leaderboard
  import opened RpsRules
  import Nickname

  const MIN_NICKNAME_LENGTH: nat := 2
  const MAX_LEADERBOARD_ENTRIES: nat := 5

  datatype Status = Idle | Playing

  /** The winning test of this version, pair by pair: each pick wins against the one it beats. */
  predicate PlayerWins(player: Choice, computer: Choice)
    ensures PlayerWins(player, computer) <==> player != computer && computer == Beaten(player)
  {
    || (player == Rock && computer == Scissors)
    || (player == Paper && computer == Rock)
    || (player == Scissors && computer == Paper)
  }

  /** This version's winning test agrees with the rules of the first version. */
  lemma PlayerWinsAgrees(player: Choice, computer: Choice)
    ensures PlayerWins(player, computer) <==> DetermineWinner(player, computer) == Win
    ensures player != computer && !PlayerWins(player, computer) <==> DetermineWinner(player, computer) == Lose
  {
  }

  // ---------------------------------------------------------------------
  // One record per name

  /** No name occurs twice on the board. */
  predicate UniqueNames(s: seq<Entry>)
  {
    forall i, j :: 0 <= i < j < |s| ==> s[i].name != s[j].name
  }

  predicate HasName(s: seq<Entry>, name: string)
  {
    exists i :: 0 <= i < |s| && s[i].name == name
  }

  /** `findIndex` on the name: the first record with that name, if any. */
  function FindName(s: seq<Entry>, name: string): (r: Option<nat>)
    ensures r.None? <==> !HasName(s, name)
    ensures r.Some? ==> r.value < |s| && s[r.value].name == name
    ensures r.Some? ==> forall j :: 0 <= j < r.value ==> s[j].name != name
  {
    if s == [] then None
    else if s[0].name == name then Some(0)
    else
      var t := FindName(s[1..], name);
      assert HasName(s[1..], name) ==> HasName(s, name) by {
        if HasName(s[1..], name) {
          var i :| 0 <= i < |s[1..]| && s[1..][i].name == name;
          assert s[i + 1].name == name;
        }
      }
      assert HasName(s, name) ==> HasName(s[1..], name) by {
        if HasName(s, name) {
          var i :| 0 <= i < |s| && s[i].name == name;
          assert i != 0 && s[1..][i - 1].name == name;
        }
      }
      if t.None? then None else Some(t.value + 1)
  }

  /**
   * The board before sorting: a name already on it gets the new score if
   * that is higher (and keeps its old score otherwise); a new name is
   * appended.
   */
  function Merge(board: seq<Entry>, name: string, score: int): (r: seq<Entry>)
    ensures HasName(board, name) ==> |r| == |board|
    ensures !HasName(board, name) ==> |r| == |board| + 1 && r[|board|] == Entry(name, score)
    ensures forall j :: 0 <= j < |board| && FindName(board, name) != Some(j) ==> r[j] == board[j]
    ensures forall j :: 0 <= j < |board| && FindName(board, name) == Some(j) ==>
              r[j] == Entry(name, BestScore(board, name, score))
  {
    match FindName(board, name)
    case Some(i) =>
      if score > board[i].score then board[i := Entry(name, score)] else board
    case None => board + [Entry(name, score)]
  }

  /** The stored board after a won round with score `score`. */
  function SaveToLeaderboard(board: seq<Entry>, name: string, score: int): (r: seq<Entry>)
    ensures score == 0 ==> r == board
    ensures score != 0 ==> Sorted(Descending, r) && |r| <= MAX_LEADERBOARD_ENTRIES
  {
    if score == 0 then board
    else
      SortStableSorted(Descending, Merge(board, name, score));
      Take(SortStable(Descending, Merge(board, name, score)), MAX_LEADERBOARD_ENTRIES)
  }

  /** The score a name ends with on the merged board: the higher of its stored score and the new one. */
  function BestScore(board: seq<Entry>, name: string, score: int): (r: int)
    ensures r >= score
    ensures !HasName(board, name) ==> r == score
    ensures forall i :: 0 <= i < |board| && board[i].name == name && FindName(board, name) == Some(i) ==>
              r >= board[i].score && (r == score || r == board[i].score)
  {
    match FindName(board, name)
    case Some(i) => if score > board[i].score then score else board[i].score
    case None => score
  }

  lemma MergeUnique(board: seq<Entry>, name: string, score: int)
    requires UniqueNames(board)
    ensures UniqueNames(Merge(board, name, score))
    ensures exists i :: 0 <= i < |Merge(board, name, score)|
                        && Merge(board, name, score)[i] == Entry(name, BestScore(board, name, score))
  {
    var m := Merge(board, name, score);
    match FindName(board, name)
    case Some(i) =>
      assert m[i] == Entry(name, BestScore(board, name, score));
    case None =>
      assert m[|board|] == Entry(name, score);
  }

  /** Inserting a record under a name that is not on a board keeps names unique. */
  lemma InsertUnique(order: Order, s: seq<Entry>, e: Entry)
    requires Sorted(order, s) && UniqueNames(s) && !HasName(s, e.name)
    ensures UniqueNames(Insert(order, s, e))
  {
    InsertAt(order, s, e);
    var k := CountAtLeast(order, s, e.score);
    var r := Insert(order, s, e);
    assert forall x :: 0 <= x < |r| ==> r[x] == if x < k then s[x] else if x == k then e else s[x - 1];
  }

  /** The stable sort keeps names unique. */
  lemma {:induction false} SortStableUnique(order: Order, s: seq<Entry>)
    requires UniqueNames(s)
    ensures UniqueNames(SortStable(order, s))
  {
    if s != [] {
      var init, last := s[..|s| - 1], s[|s| - 1];
      var sorted := SortStable(order, init);
      SortStableUnique(order, init);
      SortStableSorted(order, init);
      SortStablePermutes(order, init);
      forall x | 0 <= x < |sorted| ensures sorted[x].name != last.name {
        assert sorted[x] in multiset(init);
        var i :| 0 <= i < |init| && init[i] == sorted[x];
        assert s[i] == init[i];
      }
      InsertUnique(order, sorted, last);
    }
  }

  /** Every record on the saved board comes from the merged board. */
  lemma SavedFromMerge(board: seq<Entry>, name: string, score: int)
    requires score != 0
    ensures forall x :: x in SaveToLeaderboard(board, name, score) ==> x in Merge(board, name, score)
  {
    var m := Merge(board, name, score);
    SortStablePermutes(Descending, m);
    var sorted := SortStable(Descending, m);
    forall x | x in SaveToLeaderboard(board, name, score) ensures x in m {
      assert x in sorted;
      assert x in multiset(m);
    }
  }

  /**
   * Saving touches no other player's record: every record under another
   * name on the saved board was on the board before, unchanged.
   */
  lemma SaveKeepsOthers(board: seq<Entry>, name: string, score: int)
    ensures forall x :: x in SaveToLeaderboard(board, name, score) && x.name != name ==> x in board
  {
    if score != 0 {
      SavedFromMerge(board, name, score);
      var m := Merge(board, name, score);
      forall x | x in SaveToLeaderboard(board, name, score) && x.name != name ensures x in board {
        var j :| 0 <= j < |m| && m[j] == x;
        assert j < |board| && FindName(board, name) != Some(j);
      }
    }
  }

  /**
   * Saving keeps a single record per name, and a record under the player's
   * name on the saved board holds the player's best score: the stored one
   * or the new one, whichever is higher.
   */
  lemma SaveKeepsOneRecordPerName(board: seq<Entry>, name: string, score: int)
    requires UniqueNames(board)
    ensures UniqueNames(SaveToLeaderboard(board, name, score))
    ensures score != 0 ==> forall x :: x in SaveToLeaderboard(board, name, score) && x.name == name ==>
              x.score == BestScore(board, name, score)
  {
    if score != 0 {
      var m := Merge(board, name, score);
      var saved := SaveToLeaderboard(board, name, score);
      MergeUnique(board, name, score);
      assert UniqueNames(saved) by {
        SortStableUnique(Descending, m);
        assert saved == SortStable(Descending, m)[..|saved|];
      }
      SavedFromMerge(board, name, score);
      var p :| 0 <= p < |m| && m[p] == Entry(name, BestScore(board, name, score));
      forall x | x in saved && x.name == name
        ensures x.score == BestScore(board, name, score)
      {
        var j :| 0 <= j < |m| && m[j] == x;
        assert j == p;
      }
    }
  }

  /**
   * When the merged board fits in five records nothing is cut: a new name
   * on a board of fewer than five, or a returning name on any board of at
   * most five. The saved board then has every merged record, so the
   * player's record is there, with the player's best score.
   */
  lemma SaveWithoutCut(board: seq<Entry>, name: string, score: int)
    requires UniqueNames(board) && |Merge(board, name, score)| <= MAX_LEADERBOARD_ENTRIES && score != 0
    ensures |SaveToLeaderboard(board, name, score)| == |Merge(board, name, score)|
    ensures Entry(name, BestScore(board, name, score)) in SaveToLeaderboard(board, name, score)
  {
    var m := Merge(board, name, score);
    MergeUnique(board, name, score);
    SortStablePermutes(Descending, m);
    var p :| 0 <= p < |m| && m[p] == Entry(name, BestScore(board, name, score));
    assert m[p] in multiset(SortStable(Descending, m));
  }

  /** A name not yet on the board is saved as a plain push, sort and cut. */
  lemma SaveNewNameIsSubmit(board: seq<Entry>, name: string, score: int)
    requires !HasName(board, name) && score != 0
    ensures SaveToLeaderboard(board, name, score)
            == Submit(Descending, MAX_LEADERBOARD_ENTRIES, board, Entry(name, score))
  {
  }

  // ---------------------------------------------------------------------
  // The game

  class Game {
    var playerScore: int
    var computerScore: int
    var status: Status
    var nickname: string
    /** The persisted board, as decoded from storage. */
    var stored: seq<Entry>

    ghost predicate Valid()
      reads this
    {
      playerScore >= 0 && computerScore >= 0
    }

    /** The page's initial state over whatever board is stored. */
    constructor (board: seq<Entry>)
      ensures Valid()
      ensures playerScore == 0 && computerScore == 0 && status == Idle && nickname == ""
      ensures stored == board
    {
      playerScore, computerScore, status, nickname := 0, 0, Idle, "";
      stored := board;
    }

    /** The start button: store the trimmed nickname if it is long enough. */
    method SubmitNickname(raw: string) returns (accepted: bool)
      modifies this`nickname
      ensures accepted <==> |Nickname.Trim(raw)| >= MIN_NICKNAME_LENGTH
      ensures nickname == if accepted then Nickname.Trim(raw) else old(nickname)
    {
      var gate := Nickname.Gate(raw, MIN_NICKNAME_LENGTH);
      accepted := gate.Some?;
      if accepted {
        nickname := gate.value;
      }
    }

    method StartRound()
      modifies this`status
      ensures status == Playing
    {
      status := Playing;
    }

    /** A choice button: ignored until the round has started. */
    method ChooseClick(choice: Choice, r: real) returns (result: Option<Outcome>)
      requires Valid() && 0.0 <= r < 1.0
      modifies this`playerScore, this`computerScore, this`stored
      ensures Valid()
      ensures old(status) != Playing ==> result == None && unchanged(this)
      ensures old(status) == Playing ==>
        && result == Some(DetermineWinner(choice, ComputerChoice(r)))
        && playerScore == old(playerScore) + (if result.value == Win then 1 else 0)
        && computerScore == old(computerScore) + (if result.value == Lose then 1 else 0)
        && stored == if result.value == Win then SaveToLeaderboard(old(stored), nickname, playerScore)
                     else old(stored)
    {
      if status != Playing {
        return None;
      }
      var _, outcome := PlayRound(choice, r);
      result := Some(outcome);
    }

    /**
     * One round: the computer picks; a win adds one to the player's score
     * and offers it to the board, a loss adds one to the computer's score,
     * a draw changes nothing.
     */
    method PlayRound(choice: Choice, r: real) returns (computerChoice: Choice, result: Outcome)
      requires Valid() && 0.0 <= r < 1.0
      modifies this`playerScore, this`computerScore, this`stored
      ensures Valid()
      ensures computerChoice == ComputerChoice(r)
      ensures result == DetermineWinner(choice, computerChoice)
      ensures playerScore == old(playerScore) + (if result == Win then 1 else 0)
      ensures computerScore == old(computerScore) + (if result == Lose then 1 else 0)
      ensures stored == if result == Win then SaveToLeaderboard(old(stored), nickname, playerScore)
                        else old(stored)
      ensures result == Win ==> playerScore >= 1
    {
      computerChoice := ComputerChoice(r);
      PlayerWinsAgrees(choice, computerChoice);
      if choice == computerChoice {
        result := Draw;
      } else if PlayerWins(choice, computerChoice) {
        playerScore := playerScore + 1;
        result := Win;
        stored := SaveToLeaderboard(stored, nickname, playerScore);
      } else {
        computerScore := computerScore + 1;
        result := Lose;
      }
    }

    /** The reset button: both scores back to zero; the round stays started. */
    method Reset()
      modifies this`playerScore, this`computerScore
      ensures Valid() && playerScore == 0 && computerScore == 0
    {
      playerScore := 0;
      computerScore := 0;
    }
  }
}
