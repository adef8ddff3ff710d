# Minigames: a verified model of the game logic

This project models the rules behind six small browser minigames, with the page and the canvas taken away:

- a click-speed game;
- a number-guessing game in three versions;
- rock-paper-scissors in two versions;
- two "dodge the falling blocks" games (dodge and rocket).

What remains is each game's state and the event handlers that change it. Each game is a class whose methods are the handlers:

- the start and round buttons;
- a click, a key press, a submitted guess;
- one tick of a timer, one animation frame.

The boards the games keep in storage are modelled as a field of each class.

## Shared parts

- **Leaderboard.dfy: the board update.** Every game records a score the same way. It adds the new entry at the end, sorts the board with the engine's stable sort (descending, or ascending for the guessing game), and keeps the first 5 or 10 entries.
  - `SortStable` is a stable insertion sort. It is proved to give a sorted permutation that keeps equal scores in their original order. It is also proved to be the only sequence with those properties, so it is the sort the engine performs.
  - `Submit` is push, sort and cut. It is proved to equal inserting the new entry after every entry that ranks at least as high, then cutting.
- **Nickname.dfy: the nickname gate.** It models the engine's trim over the engine's set of white-space characters, and the "trimmed length is at least n" test.
- **Geometry.dfy: collision.** A collision is a strict overlap of axis-aligned boxes. The overlap test is proved equivalent to the boxes sharing a point, so touching edges do not collide.

## Games

- **Clicker.dfy.** The timer's one-second interval is the method `Tick`.
- **One module per source file**, except for three pairs:
  - `Guess` models both `js/guess-logic.ts` and its earlier variant `js/guess-logic-board.js`, because the two files follow the same rules. The table cites the `.ts` file. In the earlier variant, the guess handler is at lines 85-106, `endGame` at lines 109-129 and `saveScore` at lines 132-147.
  - `Dodge` models both `js/dodge-logic.js` and its earlier copy `js/dodge.js`. The table cites `js/dodge-logic.js`. In the copy:
    - board insert: lines 58-72;
    - `setupGame`: lines 98-115;
    - round start: lines 118-130;
    - `endGame`: lines 133-150;
    - key handler: lines 156-171;
    - object creation: lines 174-191;
    - frame loop: lines 194-234;
    - nickname gate: lines 239-252.
  - `RpsRules` (`js/rps-logic.js`) and `Rps` (`js/rps-logic.ts`) are two versions of rock-paper-scissors. `Rps.PlayerWinsAgrees` proves that their winning rules agree.
- **Dodge.dfy and Rocket.dfy.** One animation frame is one call of `GameLoop` or `Update`.
  - The pass over the falling objects is a loop that removes objects in place. It is a standalone method (`RunFrame`, `RunPass`).
  - Each loop is proved to compute a recursive specification (`Frame`, `Pass`).
  - That specification is in turn proved to crash exactly when some moved object hits the ship. Without a crash, it keeps the on-screen objects in order and removes the rest.

Random draws (`Math.random()`) are parameters `r` with `0 <= r < 1`. They are turned into the secret number, the computer's choice, and a spawned object's position and speed by the source's own formulas.

## Model

| member | source | states |
|---|---|---|
| Leaderboard.Insert | js/clicker-logic.ts:122-123 | placing one entry into a board makes it one longer |
| Leaderboard.SortStable | js/clicker-logic.ts:123 | the sort keeps the number of entries |
| Leaderboard.Take | js/clicker-logic.ts:124 | the cut is a prefix no longer than the cap, and it is shorter than the board only when it is exactly the cap |
| Leaderboard.Submit | js/clicker-logic.ts:121-124 | push-sort-cut gives min(old length + 1, cap) entries |
| Leaderboard.WithScoreMembers | js/clicker-logic.ts:123 | the entries of one score, in board order, are board members with that score |
| Leaderboard.InsertPermutes | js/clicker-logic.ts:122-123 | inserting adds exactly the new entry to the multiset of entries |
| Leaderboard.InsertSorted | js/clicker-logic.ts:122-123 | inserting into a sorted board keeps it sorted |
| Leaderboard.NoneAtLeastAfterWorse | js/clicker-logic.ts:123 | on a sorted board whose head ranks below a score, no entry ranks at least as high as it |
| Leaderboard.InsertAt | js/clicker-logic.ts:122-123 | the new entry lands right after every entry that ranks at least as high as it |
| Leaderboard.InsertAtEnd | js/clicker-logic.ts:122-123 | an entry ranked no higher than everything already there goes last |
| Leaderboard.WithScoreAppend | js/clicker-logic.ts:123 | picking one score's entries distributes over concatenation |
| Leaderboard.WithScoreNone | js/clicker-logic.ts:123 | a board without a score has no entries of that score |
| Leaderboard.InsertKeepsTies | js/clicker-logic.ts:122-123 | inserting keeps each score's entries in their order, with the new entry after its equals |
| Leaderboard.SortStablePermutes | js/clicker-logic.ts:123 | the sort is a permutation |
| Leaderboard.SortStableSorted | js/clicker-logic.ts:123 | the sort's result is ordered in the chosen direction |
| Leaderboard.SortStableKeepsTies | js/clicker-logic.ts:123 | the sort is stable: entries with equal scores keep their relative order |
| Leaderboard.SortedTail | js/clicker-logic.ts:123 | the tail of a sorted board is sorted and ranks no higher than its head |
| Leaderboard.SortedTiesUnique | js/clicker-logic.ts:123 | two sorted boards with the same entries per score, in the same order, are equal |
| Leaderboard.SortStableIsTheStableSort | js/clicker-logic.ts:123 | any sorted, tie-preserving arrangement of a board is exactly the one the sort gives |
| Leaderboard.SortStableOfSorted | js/clicker-logic.ts:123 | sorting an already sorted board changes nothing |
| Leaderboard.CountAtLeastAppend | js/clicker-logic.ts:122-123 | counting the entries that rank at least as high as a score adds up over concatenation |
| Leaderboard.CountAtLeastInsert | js/clicker-logic.ts:122-123 | inserting an entry raises that count by one exactly when the entry itself counts |
| Leaderboard.CountAtLeastSortStable | js/clicker-logic.ts:123 | sorting does not change that count |
| Leaderboard.SubmitIsInsertSorted | js/clicker-logic.ts:121-124 | on any board, push-sort-cut equals inserting the entry into the sorted old board, then cutting |
| Leaderboard.SubmitPlacesEntry | js/clicker-logic.ts:121-124 | on any board, with k the number of old entries ranking at least as high as the new one: below the cap the new entry lands at position k of the result, after the first k sorted old entries; at or past the cap the result is the sorted old board cut |
| Leaderboard.SubmitSorted | js/dodge-logic.js:57-67 | the recorded board is sorted, and its entries come from the old board plus the new entry |
| Leaderboard.SubmitIsInsert | js/rocket-logic.ts:151-160 | on a sorted board, push-sort-cut equals inserting the entry after its equals, then cutting |
| Leaderboard.SubmitOntoSorted | js/guess-logic.ts:151-156 | on an already sorted board, with k the number of entries ranking at least as high as the new one: below the cap the new entry sits at position k after the first k entries, followed by the rest cut to fit; at or past the cap the board is only cut |
| Leaderboard.CutAfterPlacing | js/guess-logic-board.js:132-138 | cutting a board with an entry placed at position k keeps the first k entries and then that entry iff k is below the cap, and otherwise is the old board cut |
| Leaderboard.TakeOfShort | js/dodge.js:58-72 | a board within the cap is kept whole |
| Leaderboard.TopScoreAfterSubmit | js/clicker-logic.ts:79-81 | after a score is recorded on a descending board, the shown high score is at least that score |
| Leaderboard.TopScore | js/clicker-logic.ts:79-81 | the shown high score is 0 on an empty board, otherwise the score of an entry on the board; on a descending board no entry scores more, so it is the best score |
| Nickname.LeadingSpaces | js/clicker-logic.ts:133 | counts the white space at the start of a string: all of it is white space, and the next character is not |
| Nickname.TrimStart | js/clicker-logic.ts:133 | removing leading white space leaves a suffix that does not start with white space, and only white space was removed |
| Nickname.TrimEnd | js/clicker-logic.ts:133 | removing trailing white space leaves a prefix that does not end with white space, and only white space was removed |
| Nickname.AllSpaceCons | js/clicker-logic.ts:133 | a space followed by white space is white space |
| Nickname.Trim | js/clicker-logic.ts:133 | the trimmed string has no white space at either end and is a slice of the input with only white space cut off on both sides |
| Nickname.TrimIdempotent | js/clicker-logic.ts:133 | trimming twice is trimming once |
| Nickname.TrimOfTrimmed | js/clicker-logic.ts:133 | a string without white space at either end is its own trim |
| Nickname.Gate | js/clicker-logic.ts:132-136 | a name is accepted iff its trimmed length reaches the minimum, and the accepted name is the trimmed input |
| Nickname.BlankRejected | js/rps-logic.ts:184-188 | an input of only white space is never accepted |
| Nickname.TrimStartOfBlank | js/dodge-logic.js:192-196 | an all-white-space string trims to the empty string |
| Geometry.OverlapsIffSharedPoint | js/dodge-logic.js:169-177 | the strict box test holds iff the two boxes share a point, so touching edges do not collide |
| Geometry.OverlapsSymmetric | js/rocket-logic.ts:100-105 | the overlap test does not depend on which box is which |
| Clicker.Game.constructor | js/clicker-logic.ts:47-51 | the page starts idle, with score 0, 10 seconds and the stored board |
| Clicker.Game.SubmitNickname | js/clicker-logic.ts:132-136 | the nickname changes iff the trimmed input has at least 2 characters, and then becomes the trimmed input |
| Clicker.Game.StartRound | js/clicker-logic.ts:98-101 | a round starts with score 0 and 10 seconds left, and is on |
| Clicker.Game.Click | js/clicker-logic.ts:146-150 | a click adds exactly one during a round and nothing otherwise |
| Clicker.Game.EndGame | js/clicker-logic.ts:117-124 | the round stops; the board is the old board with the score recorded, descending, at most 10 entries; the new entry is kept, at position k, exactly when fewer than 10 old entries (k of them) score at least as much; the high score is at least the round's score |
| Clicker.Game.Tick | js/clicker-logic.ts:109-114 | a tick takes one second off; the round ends exactly when no time is left, and only then records the score |
| Guess.SecretFrom | js/guess-logic.ts:96 | the drawn secret lies in 1..100 |
| Guess.SecretFromCovers | js/guess-logic.ts:96 | every number in 1..100 can be drawn |
| Guess.Best | js/guess-logic.ts:158-162 | the high score becomes the new score when unset (0); otherwise it becomes the lower of the two |
| Guess.HighAfterIsMin | js/guess-logic-board.js:141-145 | after any run of wins, the high score is the lowest winning score, or the stored one if lower |
| Guess.Game.constructor | js/guess-logic.ts:61-68 | the initial state: no round, 5 attempts, none used, the stored board and high score |
| Guess.Game.SubmitName | js/guess-logic.ts:75-85 | a name is accepted iff it is not blank after trimming, and is then stored trimmed |
| Guess.Game.InitGame | js/guess-logic.ts:95-99 | a round starts with a secret in 1..100, 5 attempts, none used, and is on |
| Guess.Game.SubmitGuess | js/guess-logic.ts:110-129 | outside a round, or with no number in 1..100, nothing changes; otherwise one attempt moves from left to used; the guess wins iff it is the secret, even on the last attempt; it loses iff it misses with none left; otherwise it says too low or too high and the round goes on; only a win is recorded |
| Guess.Game.EndGame | js/guess-logic.ts:132-148 | the round ends, and only a win records the attempts used |
| Guess.Game.SaveScore | js/guess-logic.ts:151-162 | the board gets the score ascending, at most 5 entries; the high score becomes the better of old and new |
| GuessLegacy.SecretFrom | js/guess-logic.js:26 | the secret lies in min..max = 1..100 |
| GuessLegacy.SameDrawAsGuess | js/guess-logic.js:26 | this version draws the same secret from the same random value as the later versions |
| GuessLegacy.Game.constructor | js/guess-logic.js:89 | the page starts a game at once |
| GuessLegacy.Game.StartGame | js/guess-logic.js:24-28 | 5 attempts, active, secret in 1..100 |
| GuessLegacy.Game.HandleGuess | js/guess-logic.js:41-73 | ignored when inactive; a guess with no number in range is rejected and changes nothing; a valid guess takes exactly one attempt; a match wins; otherwise reaching 0 attempts loses; otherwise a too-low or too-high hint is given and the game goes on |
| GuessLegacy.Game.EndGame | js/guess-logic.js:76-83 | the game becomes inactive |
| RpsRules.ComputerChoice | js/rps-logic.js:23-25 | the draw picks rock exactly on [0, 1/3), paper exactly on [1/3, 2/3) and scissors exactly on [2/3, 1) |
| RpsRules.DetermineWinner | js/rps-logic.js:28-37 | a draw iff both choose the same; a win iff the computer's choice is the one the player's choice beats |
| RpsRules.WinnerAntisymmetric | js/rps-logic.js:28-37 | a wins against b iff b loses against a; a draw is symmetric |
| RpsRules.WinsAgainstExactlyOne | js/rps-logic.js:32-36 | each choice beats exactly one other choice and loses exactly to the remaining one |
| RpsRules.Score.constructor | js/rps-logic.js:13 | both tallies start at 0 |
| RpsRules.Score.PlayRound | js/rps-logic.js:40-56 | the outcome follows the rules; a win adds one to the player, a loss adds one to the computer, a draw adds nothing |
| RpsRules.Score.ResetScore | js/rps-logic.js:59-62 | both tallies become 0 |
| Rps.PlayerWinsAgrees | js/rps-logic.ts:134-138 | this version's win test (rock-scissors, paper-rock, scissors-paper) is the first version's win; any other unequal pair is a loss |
| Rps.PlayerWins | js/rps-logic.ts:134-138 | the player wins iff the choices differ and the computer's is the one the player's beats |
| Rps.FindName | js/rps-logic.ts:75 | finds the first record with the name, and finds none iff the name is absent |
| Rps.Merge | js/rps-logic.ts:75-88 | a name already present keeps the board's length and its first record becomes the best score; a new name is appended with the score; every other record is unchanged |
| Rps.SaveToLeaderboard | js/rps-logic.ts:72-92 | a score of 0 saves nothing; otherwise the saved board is descending with at most 5 entries |
| Rps.BestScore | js/rps-logic.ts:77-81 | the player's record ends with the higher of its stored score and the new score, or the new score for a new name |
| Rps.MergeUnique | js/rps-logic.ts:75-88 | the merge keeps names unique and holds the player's record with the best score |
| Rps.InsertUnique | js/rps-logic.ts:89 | placing a record under a new name keeps names unique |
| Rps.SortStableUnique | js/rps-logic.ts:89 | sorting keeps names unique |
| Rps.SavedFromMerge | js/rps-logic.ts:89-90 | every saved record comes from the merged board |
| Rps.SaveKeepsOthers | js/rps-logic.ts:72-92 | every record under another name on the saved board was on the board before, unchanged |
| Rps.SaveKeepsOneRecordPerName | js/rps-logic.ts:72-92 | with distinct names before, the saved board has distinct names, and the player's record, if kept, holds the best score |
| Rps.SaveWithoutCut | js/rps-logic.ts:72-92 | when the merged board has at most 5 records (a new name on fewer than 5, or a returning name on a board of at most 5), nothing is cut: the saved board is as long as the merged one and keeps the player's best record |
| Rps.SaveNewNameIsSubmit | js/rps-logic.ts:82-90 | for a new name, saving is the shared push-sort-cut |
| Rps.Game.constructor | js/rps-logic.ts:60-65 | the initial state: no round started, both scores 0, the stored board |
| Rps.Game.SubmitNickname | js/rps-logic.ts:183-196 | accepted iff the trimmed input has at least 2 characters, and then stored trimmed |
| Rps.Game.StartRound | js/rps-logic.ts:198-202 | the round is on |
| Rps.Game.ChooseClick | js/rps-logic.ts:204-210 | a choice is ignored, changing nothing, unless the round is on; otherwise a round is played |
| Rps.Game.PlayRound | js/rps-logic.ts:123-149 | the computer's choice comes from the draw; a win adds one to the player's score and saves it; a loss adds one to the computer's; a draw changes nothing |
| Rps.Game.Reset | js/rps-logic.ts:212-221 | both scores become 0; nothing else changes |
| Dodge.HitsIsOverlap | js/dodge-logic.js:169-177 | the collision test is the strict overlap of the object's box with the player's box, so it holds iff some point lies strictly inside both |
| Dodge.NewObject | js/dodge-logic.js:141-155 | a new object starts one size above the field, in a column inside it, with speed in [1.5, 3.5) |
| Dodge.NewObjectClear | js/dodge-logic.js:141-155 | a newly created object does not touch the player |
| Dodge.Frame | js/dodge-logic.js:157-188 | each object is either kept or counted as removed |
| Dodge.OnScreen | js/dodge-logic.js:179-185 | the objects kept are exactly those still on the field: each kept one is on the field and every one on the field is kept |
| Dodge.OnScreenAppend | js/dodge-logic.js:179-185 | keeping on-field objects distributes over concatenation, so the kept objects stay in order |
| Dodge.FrameCrashIff | js/dodge-logic.js:169-177 | a frame crashes iff some object, after moving, hits the player |
| Dodge.FrameAtFirstHit | js/dodge-logic.js:159-186 | a frame whose first hit is the object at h: the earlier objects fell and those past the bottom were removed and counted, the hitting one fell, the later ones did not move |
| Dodge.FrameWithoutHit | js/dodge-logic.js:179-185 | without a crash, the objects kept are the moved objects still on the field, in order, and the score rises by the number removed |
| Dodge.FrameStepHit | js/dodge-logic.js:169-177 | the first object that hits stops the pass at once |
| Dodge.FrameStepMiss | js/dodge-logic.js:179-185 | an object that misses is removed if it left the field and kept otherwise |
| Dodge.RunFrame | js/dodge-logic.js:159-186 | the in-place loop with removal computes exactly `Frame` |
| Dodge.Game.constructor | js/dodge-logic.js:36-45 | the initial state: inactive, player centred at 220, no objects, the stored board |
| Dodge.Game.SubmitNickname | js/dodge-logic.js:191-207 | accepted iff the trimmed input has at least 2 characters, and then stored trimmed |
| Dodge.Game.SetupGame | js/dodge-logic.js:86-102 | score 0, no objects, player at 220 |
| Dodge.Game.StartGameRound | js/dodge-logic.js:104-110 | the round is set up and on |
| Dodge.Game.EndGame | js/dodge-logic.js:112-127 | the round stops; the score is recorded only if a round was on, so a second call records nothing |
| Dodge.Game.HandleKeyDown | js/dodge-logic.js:129-139 | ignored outside a round; left and right move by 10, clamped to [0, 440]; other keys change nothing |
| Dodge.Game.CreateFallingObject | js/dodge-logic.js:141-155 | appends one new object |
| Dodge.Game.GameLoop | js/dodge-logic.js:157-188 | outside a round nothing changes; otherwise the objects and score follow `Frame`, and a crash ends the round and records the score |
| Rocket.HitsIsOverlap | js/rocket-logic.ts:100-108 | the collision test is the strict overlap of ship and obstacle boxes, so it holds iff some point lies strictly inside both |
| Rocket.Move | js/rocket-logic.ts:87-92 | a frame moves the ship by one step at most; with only left held it moves left a step when right of 0, with only right held it moves right a step when left of 360, with neither held it stays; it moves left only when left is held and it is right of 0, right only when right is held; a ship right of -7 stays right of -7, and one left of 367 stays left of 367 |
| Rocket.MoveStaysOnTrack | js/rocket-logic.ts:87-92 | movement keeps the ship on the grid of whole steps from 180, between -2 and 362 |
| Rocket.OverhangReached | js/rocket-logic.ts:87-92 | both overhangs past the edges, -2 and 362, are reached |
| Rocket.NewObstacle | js/rocket-logic.ts:72-82 | a new obstacle starts one size above the field, inside it horizontally, with speed in [3, 6) |
| Rocket.NewObstacleClear | js/rocket-logic.ts:72-82 | a newly spawned obstacle cannot hit the ship in its first frame |
| Rocket.Pass | js/rocket-logic.ts:96-113 | the pass never adds obstacles |
| Rocket.OnScreen | js/rocket-logic.ts:110-112 | the obstacles kept are exactly those still on the field: each kept one is on the field and every one on the field is kept |
| Rocket.OnScreenAppend | js/rocket-logic.ts:110-112 | keeping on-field obstacles distributes over concatenation |
| Rocket.PassCrashIff | js/rocket-logic.ts:96-108 | a pass crashes iff some obstacle, after moving, hits the ship |
| Rocket.PassWithoutHit | js/rocket-logic.ts:110-112 | without a crash, the obstacles kept are the moved ones still on the field, in order |
| Rocket.PassAtLastHit | js/rocket-logic.ts:96-113 | a pass whose hit, from the back, is the obstacle at h: the earlier obstacles did not move, the hitting one fell, the later ones fell and only those still on the field were kept, in order |
| Rocket.PassStepHit | js/rocket-logic.ts:100-108 | an obstacle that hits stops the pass at once |
| Rocket.PassStepMiss | js/rocket-logic.ts:110-112 | an obstacle that misses is removed if it left the field and kept otherwise |
| Rocket.RunPass | js/rocket-logic.ts:96-113 | the reverse loop with in-place removal computes exactly `Pass` |
| Rocket.RocketName | js/rocket-logic.ts:193 | the name is the trimmed input cut to 15 characters, or "Commander" when that is empty |
| Rocket.Game.constructor | js/rocket-logic.ts:36-49 | the initial state: not running, score 0, ship at 180, no obstacles, default name |
| Rocket.Game.SubmitNickname | js/rocket-logic.ts:193 | the nickname becomes the normalised input |
| Rocket.Game.KeyDown | js/rocket-logic.ts:189 | a pressed key is held |
| Rocket.Game.KeyUp | js/rocket-logic.ts:190 | a released key is no longer held |
| Rocket.Game.ResetGameState | js/rocket-logic.ts:182-187 | score 0, no obstacles, ship at 180 |
| Rocket.Game.SaveScore | js/rocket-logic.ts:151-160 | the whole points reached go onto the board, descending, at most 5 entries, and the board's top is at least that score |
| Rocket.Game.EndGame | js/rocket-logic.ts:137-149 | the round stops and its score is recorded |
| Rocket.Game.Update | js/rocket-logic.ts:84-120 | outside a round nothing changes; otherwise the ship moves, an obstacle may spawn, and the obstacles follow `Pass`; a crash ends and records the round without counting the frame; otherwise the score counts one more frame |
| Rocket.Game.StartRound | js/rocket-logic.ts:206-220 | a fresh round is running after its first frame, with one frame counted, since nothing can hit in the first frame |

## Left out

- Rendering is not modelled: list building, class toggling, visibility, messages, and the rocket's canvas drawing. Only the values behind them are kept, such as the high score shown as the first board entry.
- Storage is not modelled. Boards are already-decoded sequences of name and score, held in a field of each game.
  - Reading and writing storage and JSON are left out.
  - The pages do not catch a JSON parse failure, so corrupt stored data throws. No "corrupt gives an empty board" rule exists to model.
- Timers, intervals and animation frames are left out. Each firing is one explicit call (`Tick`, `GameLoop`, `Update`), and there is no concurrency.
- The date stored with a board record is left out (a clock).
- Audio and the music toggles are left out (js/utils/audio-helper.ts, js/utils/audio-helper.js), as are the page navigation and carousel of js/script.js.
- dist/*.js is compiled output of the `.ts` sources and is not part of this model.
- The guess-logic.ts page assigns `gameState` at js/guess-logic.ts:25, before its `let` declaration at js/guess-logic.ts:61 in the same scope. That is a temporal-dead-zone error when the page loads. The model starts from the state declared at lines 61-68 and does not reproduce the error.
- Input parsing is not modelled. A submitted guess is the result of `parseInt`: a number, or None for NaN.
- Keys are passed as their key strings.
- Strings are sequences of characters. The engine's UTF-16 code units, as counted by `length` and `substring` on names outside the basic plane, are not distinguished from characters.
- Rocket.Game.SaveScore: the source adds 0.1 per frame to a floating-point score and records its floor. The model counts whole frames and records frames / 10. After ten frames the float sum is 0.9999999999999999, so the source's floor can lag one point behind the model's.
- Coordinates and speeds are exact reals. Floating-point rounding of positions is not modelled.
- Dodge.Frame, Rocket.Pass: these functions' own contracts give only the sizes. Their meaning is stated by the lemmas `FrameCrashIff`/`FrameWithoutHit`/`FrameAtFirstHit` and `PassCrashIff`/`PassWithoutHit`/`PassAtLastHit`.
- Guess.Game.SubmitGuess: the hint and error messages shown to the player are left out. Only the verdict is kept.
- GuessLegacy.Game.HandleGuess: this version's messages are left out as well. Only the verdict is kept.
