# Bulldog dice game — Dafny model

Bulldog is a dice game for 2 to 7 players. Players take turns in roster order.
In a turn, a player rolls a six-sided die repeatedly and adds each face to a
turn score. A 6 busts the turn, which then scores nothing. Each strategy decides
when to stop and bank its turn score:

- Wimp stops after one roll.
- Odd keeps rolling while the faces are odd.
- Fifteen keeps rolling while its turn total is at most 15.
- Random flips a coin after each roll.
- Human asks for y/n on the console.

The first player whose total reaches 104 wins. The same game loop appears twice:
in the console program `Prog6`, whose numbered menu builds the roster, and in the
windowed `BulldogGame`. The windowed game's setup screen adds players by name and
type string, and removes them with a per-player button. `PlayerManager` is an
ordered player list, and `Dice` is a checked die.

The model is split into these modules:

- `Common`: faces, coins and turn results, plus sequence helpers. Among them is
  `RemoveFirst`, the `List.remove(Object)` of Java.
- `Dice`: the die.
- `Players`: the player record. `Kind` stands for the subclass.
- `Wimp`, `Odd`, `Fifteen`, `Random`, `Human`: each turn rule. Each has a
  specification function (`WimpTurn`, `OddTurn`, …), lemmas about what that
  function returns, and the imperative `Play` method proved equal to it.
  Wimp and Odd keep their `turnScore`/`continueTurn` fields in a class, as the
  source does.
- `Strategy`: dispatch from a kind to its turn rule, with the score bounds every
  rule keeps.
- `GameLoop`: the turn/score/win loop. `RunGame` updates `Player` objects in
  place and is proved equal to the function `PlayGame`. `GameOutcome` relates
  `PlayGame` to an independent reference, `Totals`, in which turn `p` goes to
  seat `p mod n`.
- `BulldogGame`: the windowed setup screen and the type names.
- `ConsoleGame`: the `Prog6` setup menu and the whole console program.
- `PlayerManager`: the list class.

Randomness is an explicit input. A turn consumes a sequence of die faces, and
Random also consumes a sequence of coins. Human consumes a sequence of console
lines. A turn returns `Over(score, rollsUsed, answersUsed)`, or `RanOut` when
the input ends before the turn does. The game loop consumes one turn score per
turn.

## Model

| member | source | states |
|---|---|---|
| Dice.Dice.constructor | Dice.java:20-25 | the die keeps the side count it was given |
| Dice.Dice.Create | Dice.java:20-25 | construction fails (no die) exactly when sides < 1; otherwise a new die with that side count |
| Dice.Dice.Roll | Dice.java:32-34 | a roll lies in 1..sides |
| Dice.Dice.GetSides | Dice.java:41-43 | returns the constructor's side count, which is at least 1 |
| Players.Player.constructor | Player.java:36-40 | a new player has the given name and score 0 |
| Players.Player.GetName | Player.java:47-49 | returns the current name |
| Players.Player.SetName | Player.java:56-58 | the name becomes the argument; the score is unchanged |
| Players.Player.GetScore | Player.java:65-67 | returns the current score |
| Players.Player.SetScore | Player.java:74-76 | the score becomes the argument; the name is unchanged |
| Players.Player.Play | Player.java:105-107 | the base player's turn scores 0 |
| Wimp.WimpTurnFacts | WimpPlayer.java:94-151 | a Wimp turn uses exactly one roll; a 6 scores 0, any other face scores that face (1..5); it runs out only when there is no roll |
| Wimp.WimpPlayer.constructor | WimpPlayer.java:36-60 | turn score 0, no turn in progress |
| Wimp.WimpPlayer.DoSingleRoll | WimpPlayer.java:132-151 | a 6 sets the turn score to 0, any other face sets it to that face; the turn always ends |
| Wimp.WimpPlayer.Play | WimpPlayer.java:94-121 | the returned result is WimpTurn of the rolls; when the turn is over the field turnScore holds its score and the turn flag is cleared |
| Odd.OddTurnEndsAtFirstEven | OddPlayer.java:136-164 | when rolls before n are odd and roll n is not, the turn ends after n+1 rolls, scoring 0 on a 6 and the sum of those rolls otherwise |
| Odd.OddTurnRunsOut | OddPlayer.java:136-164 | a run of only odd faces never ends the turn |
| Odd.OddTurnFacts | OddPlayer.java:97-164 | a finished turn's rolls before the last are odd; a bust scores 0; otherwise the last roll is 2 or 4, the score is the sum of the rolls used and lies between rollsUsed and 5*rollsUsed |
| Odd.OddTurnExample | OddPlayer.java:136-164 | rolls 3, 5, 2 end the turn with 10 after three rolls |
| Odd.OddPlayer.constructor | OddPlayer.java:39-62 | turn score 0, no turn in progress |
| Odd.OddPlayer.ContinuePlay | OddPlayer.java:136-164 | a 6 zeroes the turn score and ends the turn; any other face is added, and the turn continues only on an odd face |
| Odd.OddPlayer.Play | OddPlayer.java:97-124 | the repeated roll callback yields OddTurn of the rolls; a finished turn leaves its score in turnScore and the flag cleared |
| Fifteen.FifteenTurnFacts | FifteenPlayer.java:16-28 | a 6 while the total is at most 15 scores 0; otherwise the turn stops at the first total above 15, so it scores 16..20, the sum of the rolls used; running out means every total so far was at most 15 |
| Fifteen.Play | FifteenPlayer.java:16-28 | the loop returns FifteenTurn of the rolls |
| Random.RandomTurnFacts | RandomPlayer.java:15-32 | a bust scores 0; otherwise one coin was flipped per roll, the last coin is 0 and the earlier ones 1, and the score is the sum of the rolls used |
| Random.RandomTurnRunsOut | RandomPlayer.java:15-32 | with no 6 and only 1-coins the turn never ends |
| Random.Play | RandomPlayer.java:15-32 | the loop returns RandomTurn of the rolls and coins |
| Human.NextAnswer | HumanPlayer.java:31-43 | finds the first "y"/"n" line (either case), every line skipped being invalid; none means all remaining lines are invalid |
| Human.InvalidLinesSkipped | HumanPlayer.java:31-43 | invalid lines do not change which answer is taken next |
| Human.Answers | HumanPlayer.java:31-43 | the valid answers typed, in order; never more than the lines, and never an invalid line |
| Human.NextAnswerIsNextOfAnswers | HumanPlayer.java:31-43 | the answer the inner loop takes next is the next entry of the valid answers; when it finds none, no valid answer remains |
| Human.HumanTurnFacts | HumanPlayer.java:16-45 | no roll before the last is a 6; the valid answers read number one per roll before the last, all "y", invalid lines using up no roll; a bust on the last roll scores 0, after no line on the first roll and otherwise with the last line read a "y"; otherwise that roll's answer, the last line read, is "n", and the score is the sum of the rolls used, between rollsUsed and 5*rollsUsed |
| Human.HumanTurnEndsAt | HumanPlayer.java:16-45 | the converse: with safe rolls before n and valid answers starting with n "y"s, the turn ends after roll n, scoring 0 on a 6 and, when the next answer is "n", the sum of rolls 0..n |
| Human.HumanTurnExample | HumanPlayer.java:16-45 | rolls 1, 2, 3 with answers y, x, y, n score 6 after three rolls and four lines; rolls 1, 2 with lines x, n score 1 after one roll |
| Human.Play | HumanPlayer.java:16-45 | the nested loops return HumanTurn of the rolls and lines |
| Strategy.TakeTurn | BulldogGame.java:454 | the polymorphic play(): the base player rolls nothing and scores 0 (Player.java:105-107), and every strategy kind that finishes has rolled at least once, within the supplied rolls |
| Strategy.TurnScoreBounds | BulldogGame.java:454-457 | whatever kind plays, a finished turn scores between 0 and 5 per roll used; Wimp scores at most 5 and Fifteen at most 20 |
| GameLoop.GameOutcome | BulldogGame.java:420-484 | the final scores are the initial ones plus turn p credited to seat p mod n; a winner is the seat of the last turn and has at least 104; when everyone started below 104, nobody reached 104 before that turn, and without a winner nobody reached it at all |
| GameLoop.GameNeverLowersScores | BulldogGame.java:454-457 | with non-negative turn scores no total ever decreases |
| GameLoop.StrategyTurnsNeverLowerScores | BulldogGame.java:454-457 | when each turn score comes from a strategy's finished turn, no total decreases |
| GameLoop.AddTurnScore | BulldogGame.java:454-457 | the current player's score grows by the turn score; no other score and no name changes |
| GameLoop.PlayTurn | BulldogGame.java:454-473 | one loop body: the mover's total grows by the turn score; reaching 104 ends the game with the mover as winner, otherwise play passes to the next seat, as PlayGame does |
| GameLoop.PlayRound | BulldogGame.java:422-483 | one pass over the roster agrees with PlayGame's unfolding: it stops at the first player reaching 104 |
| GameLoop.RunGame | BulldogGame.java:412-488 | the scores, turn count and winner left by the loop are those of PlayGame on the old scores; names are unchanged |
| BulldogGame.TypeName | BulldogGame.java:403-410 | each strategy kind's name is one of the selector's type strings; the base class's name is not |
| BulldogGame.KindOfTypeName | BulldogGame.java:150-156 | a type string creates a player kind exactly when it is one of the selector's strings (BulldogGame.java:65), and never the base class |
| BulldogGame.TypeNameRoundTrip | BulldogGame.java:403-410 | each strategy kind's type name creates that kind; "Unknown Player" creates nothing; a type string creates a kind only when it is that kind's name |
| BulldogGame.TrimIsInnerSlice | BulldogGame.java:141 | the trimmed name is a contiguous piece of the text with no blank at either end |
| BulldogGame.TrimEmptyIff | BulldogGame.java:141-145 | the name is refused exactly when the text is all blanks |
| BulldogGame.BulldogGame.constructor | BulldogGame.java:29-40 | empty roster, add enabled, start disabled |
| BulldogGame.BulldogGame.AddPlayer | BulldogGame.java:140-170 | a blank name changes nothing; a known type appends one new player with the trimmed name and score 0; an unknown type appends nothing; then start is enabled for 2..7 players and, by the corrected rule of the finding, adding is disabled from 7 on, so the roster never exceeds 7 and stays duplicate-free |
| BulldogGame.BulldogGame.RemovePlayer | BulldogGame.java:201-210 | the player is removed (the roster shrinks by one); start is enabled exactly for 2..7 players and add is re-enabled; the roster bounds still hold |
| BulldogGame.BulldogGame.StartGame | BulldogGame.java:243-255 | the game run on the roster ends as PlayGame says |
| BulldogGame.RemoveFirstKeepsDistinct | BulldogGame.java:202 | removing a player keeps the roster free of duplicates and adds nobody |
| BulldogGame.ButtonsAfterAdd | BulldogGame.java:164-169 | the rule as written: start becomes enabled for 2..7 players and stays as it was otherwise; adding stays enabled only while the size is at most 7 |
| BulldogGame.ButtonsAfterRemove | BulldogGame.java:208-209 | adding is re-enabled and the size is kept; for at most 7 players start is enabled exactly for 2..7 |
| BulldogGame.ClicksAsWritten | BulldogGame.java:164-169 | driving the screen by clicks under the rules as written; each click changes the roster by at most one player, so the final size is within the number of clicks of the starting size, above and below |
| BulldogGame.AsWrittenNeverPastEight | BulldogGame.java:164-169 | as written, the roster can reach 8 but never more, since adding is disabled once it exceeds 7 |
| BulldogGame.EighthPlayerAcceptedAsWritten | BulldogGame.java:164-169 | eight adds from the empty screen give 8 players with start still enabled |
| BulldogGame.CorrectedSetupStaysWithinBounds | BulldogGame.java:164-169 | with adding disabled from 7 players on, any clicks keep at most 7 players and start enabled exactly for 2..7 |
| ConsoleGame.KindOfSelection | Prog6.java:23-39 | menu numbers 1..5 create a strategy kind; any other number creates nobody |
| ConsoleGame.SelectionMatchesMenu | Prog6.java:16-39 | number n creates the kind the nth menu line names; distinct numbers create distinct kinds; every strategy is on the menu |
| ConsoleGame.Recruits | Prog6.java:14-40 | the setup creates at most one place per entry, never the base kind |
| ConsoleGame.RecruitsAppend | Prog6.java:14-40 | setting up two batches of entries gives the first batch's places followed by the second's |
| ConsoleGame.RecruitsOfValidEntries | Prog6.java:14-40 | every entry creates its place, with its kind and name in the same position, exactly when all numbers are on the menu |
| ConsoleGame.Setup | Prog6.java:14-40 | the loop creates distinct new players with the chosen kinds and names and score 0, in entry order |
| ConsoleGame.PlayConsoleGame | Prog6.java:6-55 | the whole program's roster and result are those of Recruits and PlayGame from all-zero scores |
| Common.RemoveFirst | PlayerManager.java:37-39 | an absent element leaves the list as it is; a present one shortens it by one |
| Common.RemoveFirstSplices | PlayerManager.java:37-39 | removal splices out the first occurrence and keeps the order of the rest |
| PlayerManager.RemoveAt | PlayerManager.java:48-50 | earlier elements keep their place, later ones move down one |
| PlayerManager.RemoveAtThenInsert | PlayerManager.java:48-50 | putting the removed element back at its index restores the list |
| PlayerManager.RemoveFirstIsRemoveAt | PlayerManager.java:37-50 | removing a listed player equals removing the index of its first occurrence |
| PlayerManager.PlayerManager.constructor | PlayerManager.java:14-16 | the list starts empty |
| PlayerManager.PlayerManager.AddPlayer | PlayerManager.java:24-29 | a non-null player is appended and true returned; null is refused with false and no change |
| PlayerManager.PlayerManager.RemovePlayer | PlayerManager.java:37-39 | returns whether the player was listed, and removes its first occurrence |
| PlayerManager.PlayerManager.RemovePlayerAt | PlayerManager.java:48-50 | a valid index removes and returns that player; an invalid one (the exception) changes nothing |
| PlayerManager.PlayerManager.GetPlayerName | PlayerManager.java:59-61 | the name at a valid index; nothing for an invalid one |
| PlayerManager.PlayerManager.SetPlayerScore | PlayerManager.java:70-72 | a valid index sets the score of the player object there, seen at every position holding that same object; no other player's score and no name changes; an invalid index changes nothing |
| PlayerManager.PlayerManager.GetPlayerScore | PlayerManager.java:81-83 | the score at a valid index; nothing for an invalid one |
| PlayerManager.PlayerManager.GetPlayer | PlayerManager.java:92-94 | the player at a valid index; nothing for an invalid one |
| PlayerManager.PlayerManager.GetAllPlayers | PlayerManager.java:101-103 | the same players in the same order |
| PlayerManager.PlayerManager.GetPlayerCount | PlayerManager.java:110-112 | the number of listed players |
| PlayerManager.PlayerManager.ContainsPlayer | PlayerManager.java:120-122 | true exactly when some index holds the player |
| PlayerManager.PlayerManager.ClearPlayers | PlayerManager.java:127-129 | the list becomes empty |

## Left out

- The Swing interface is not modelled: frames, panels, labels, dialogs, the score display, the per-player `JPanel` (`getPlayerFrame`/`setPlayerFrame`) and the win screen. `ScoreboardViewer` is not part of this model.
- Threads and timing are not modelled: the game thread, `SwingUtilities.invokeLater`, `Thread.sleep` and the `javax.swing.Timer` callbacks of Wimp and Odd. The callback chain is modelled as a sequential loop.
- Randomness is not modelled. `java.util.Random` and `Math.random()` become supplied sequences of faces (1..6) and coins (0..1); `Dice.Roll` is a free choice in range.
- Console I/O is not modelled. Scanner input is supplied: the Prog6 setup entries and the Human answer lines. Printed messages are not modelled.
- Probabilistic termination: Odd, Fifteen, Random and Human turns are bounded by the supplied input. A turn whose input ends returns `RanOut`, and the game loop likewise stops when the supplied turn scores end.
- Each turn rule reads its own supplied rolls. The game loop consumes one turn score per turn, and `StrategyTurnsNeverLowerScores` ties those scores to the turn rules. The model does not thread one shared random stream through all players.
- Empty roster: with no players, the source's game loop spins forever. The model returns no winner after 0 turns.
- Java `int` overflow of scores and turn totals is not modelled (integers are unbounded).
- Prog6's player count: the model's setup runs once per supplied entry, so a count of 0 or below is an empty entry list. A non-numeric answer (a Scanner exception) is not modelled.
- The no-argument constructors of the strategy classes are not modelled. They only pick a default name such as "Wimp" or "Fifteen".
- Fifteen.Play follows the loop condition as written, `turn <= 15`, so a turn at exactly 15 rolls again and a non-bust turn scores 16..20.
- Human answers: `toLowerCase` accepts "y"/"Y" and "n"/"N" only. Longer lines and other text count as invalid and are asked again.
- BulldogGame.BulldogGame.AddPlayer: uses the corrected button rule of the finding below (adding disabled once 7 players are listed) instead of the code's `> 7`; the rule as written is `ButtonsAfterAdd`. It requires the add button to be enabled, since a disabled button does not fire. Clearing the name field after an add is an interface effect and is not modelled.
- BulldogGame.BulldogGame.RemovePlayer: requires the player to be listed, since its remove button exists only while its box is shown.
- PlayerManager.PlayerManager.SetPlayerScore: answers whether the index was valid, where the source returns nothing and throws for a bad index.

## Findings

| source | as written | input that shows it | evidently intended | confidence | as-written member | corrected member |
|---|---|---|---|---|---|---|
| BulldogGame.java:164-169 | adding is disabled only when the roster exceeds 7 players, after the add | eight clicks on "Add Player" with valid names from the empty screen: the eighth is accepted, leaving 8 players with start enabled | the "Maximum 7 players allowed" rule: disable adding once 7 players are listed, so the roster never exceeds 7 and start is enabled only for 2..7 | not executed | BulldogGame.EighthPlayerAcceptedAsWritten | BulldogGame.CorrectedSetupStaysWithinBounds |
