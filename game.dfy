/**
 * The round-robin game loop shared by the console game and the windowed game:
 * players take turns in roster order, each turn's score is added to the
 * player's total, and the first total to reach the winning score ends the game.
 */
module GameLoop {
  import opened Common
  import opened Players
  import Strategy

  /** The winning score. */
  const WinningScore: int := 104

  /**
   * Where a game stands: every player's total, how many turns were taken, and
   * the seat of the winner if there is one.
   */
  datatype Game = Game(scores: seq<int>, turnsTaken: nat, winner: Option<nat>)

  /** The seat after seat `i` in a roster of `n`, wrapping to the first. */
  function NextSeat(i: nat, n: nat): nat
  {
    if i + 1 == n then 0 else i + 1
  }

  /**
   * The game from turn `k` on, seat `i` to move. `turns[k]` is the score that
   * turn `k` produced.
   */
  function RunFrom(scores: seq<int>, turns: seq<int>, k: nat, i: nat): (g: Game)
    requires k <= |turns| && i < |scores|
    ensures k <= g.turnsTaken <= |turns| && |g.scores| == |scores|
    decreases |turns| - k
  {
    if k == |turns| then Game(scores, k, None)
    else
      var s := scores[i := scores[i] + turns[k]];
      if s[i] >= WinningScore then Game(s, k + 1, Some(i))
      else RunFrom(s, turns, k + 1, NextSeat(i, |scores|))
  }

  /**
   * A whole game from the given starting totals, on the given sequence of turn
   * scores. With nobody seated the source loops for ever without taking a
   * turn; here that is a game with no turns and no winner.
   */
  function PlayGame(scores: seq<int>, turns: seq<int>): Game
  {
    if scores == [] then Game(scores, 0, None) else RunFrom(scores, turns, 0, 0)
  }

  /**
   * The reference: the totals after the turns in `turns` were all added, turn
   * `p` going to seat `Seat(p, n)`, that is `p` mod `n`.
   */
  function Totals(initial: seq<int>, turns: seq<int>): (s: seq<int>)
    requires |initial| > 0
    ensures |s| == |initial|
    decreases |turns|
  {
    if turns == [] then initial
    else
      var prev := Totals(initial, turns[..|turns| - 1]);
      var seat := Seat(|turns| - 1, |initial|);
      prev[seat := prev[seat] + turns[|turns| - 1]]
  }

  predicate AllBelow(scores: seq<int>)
  {
    forall j :: 0 <= j < |scores| ==> scores[j] < WinningScore
  }

  /** Turn `p` in a roster of `n` goes to seat `p` mod `n`, counted by repeated rounds. */
  function Seat(p: nat, n: nat): (i: nat)
    requires n > 0
    ensures i < n
  {
    if p < n then p else Seat(p - n, n)
  }

  lemma {:induction false} SeatStep(k: nat, n: nat)
    requires n > 0
    ensures Seat(k + 1, n) == NextSeat(Seat(k, n), n)
  {
    if k + 1 >= n && k >= n {
      SeatStep(k - n, n);
    }
  }

  lemma TotalsStep(initial: seq<int>, turns: seq<int>, k: nat)
    requires |initial| > 0 && k < |turns|
    ensures var prev := Totals(initial, turns[..k]);
      Totals(initial, turns[..k + 1]) ==
        prev[Seat(k, |initial|) := prev[Seat(k, |initial|)] + turns[k]]
  {
    var t := turns[..k + 1];
    assert |t| - 1 == k && t[k] == turns[k];
    assert t[..|t| - 1] == turns[..k];
  }

  /**
   * The loop from turn `k` on, when the totals so far are the reference totals
   * and seat `i` is `Seat(k, n)`: it ends with the reference totals of the
   * turns it took, and a winner sits at the seat of the last turn.
   */
  lemma {:induction false} RunFromMatchesTotals(initial: seq<int>, turns: seq<int>, k: nat, i: nat)
    requires |initial| > 0 && k <= |turns| && i < |initial|
    requires i == Seat(k, |initial|)
    ensures var g := RunFrom(Totals(initial, turns[..k]), turns, k, i);
      && k <= g.turnsTaken <= |turns|
      && g.scores == Totals(initial, turns[..g.turnsTaken])
      && (g.winner.None? ==> g.turnsTaken == |turns|)
      && (g.winner.Some? ==>
            && g.turnsTaken >= 1
            && g.winner.value == Seat(g.turnsTaken - 1, |initial|)
            && g.scores[g.winner.value] >= WinningScore)
    decreases |turns| - k
  {
    var n := |initial|;
    var scores := Totals(initial, turns[..k]);
    if k < |turns| {
      TotalsStep(initial, turns, k);
      var s := scores[i := scores[i] + turns[k]];
      assert s == Totals(initial, turns[..k + 1]);
      if s[i] < WinningScore {
        SeatStep(k, n);
        RunFromMatchesTotals(initial, turns, k + 1, NextSeat(i, n));
      }
    } else {
      assert turns[..k] == turns;
    }
  }

  /**
   * The same loop when every reference total so far is below the winning
   * score: no total reaches it before the turn the loop ends on, and at the
   * end only the winner, if any, has reached it.
   */
  lemma {:induction false} RunFromFirstToCross(initial: seq<int>, turns: seq<int>, k: nat, i: nat)
    requires |initial| > 0 && k <= |turns| && i < |initial|
    requires i == Seat(k, |initial|)
    requires forall t :: 0 <= t <= k ==> AllBelow(Totals(initial, turns[..t]))
    ensures var g := RunFrom(Totals(initial, turns[..k]), turns, k, i);
      && (forall t :: 0 <= t < g.turnsTaken ==> AllBelow(Totals(initial, turns[..t])))
      && (g.winner.None? ==> AllBelow(g.scores))
      && (g.winner.Some? ==>
            forall j :: 0 <= j < |g.scores| && j != g.winner.value ==> g.scores[j] < WinningScore)
    decreases |turns| - k
  {
    var n := |initial|;
    var scores := Totals(initial, turns[..k]);
    assert AllBelow(scores);
    if k < |turns| {
      TotalsStep(initial, turns, k);
      var s := scores[i := scores[i] + turns[k]];
      assert s == Totals(initial, turns[..k + 1]);
      if s[i] < WinningScore {
        SeatStep(k, n);
        assert AllBelow(s);
        assert forall t :: 0 <= t <= k + 1 ==> AllBelow(Totals(initial, turns[..t]));
        RunFromFirstToCross(initial, turns, k + 1, NextSeat(i, n));
      }
    }
  }

  /**
   * The loop's outcome against the reference totals, for any game with at
   * least one player. The totals are the reference totals of exactly the turns
   * taken, so no turn after the winning one is counted. A winner sits at the
   * seat of the last turn taken and has reached the winning score. When every
   * total starts below the winning score, nobody reached it after any earlier
   * turn, and when the game ends only the winner has reached it: the winner is
   * the first to cross.
   */
  lemma GameOutcome(initial: seq<int>, turns: seq<int>)
    requires |initial| > 0
    ensures var g := PlayGame(initial, turns);
      && g.turnsTaken <= |turns|
      && g.scores == Totals(initial, turns[..g.turnsTaken])
      && (g.winner.None? ==> g.turnsTaken == |turns|)
      && (g.winner.Some? ==>
            && g.turnsTaken >= 1
            && g.winner.value == Seat(g.turnsTaken - 1, |initial|)
            && g.scores[g.winner.value] >= WinningScore)
      && (AllBelow(initial) ==>
            && (forall t :: 0 <= t < g.turnsTaken ==> AllBelow(Totals(initial, turns[..t])))
            && (g.winner.None? ==> AllBelow(g.scores))
            && (g.winner.Some? ==>
                  forall j :: 0 <= j < |g.scores| && j != g.winner.value ==> g.scores[j] < WinningScore))
  {
    assert turns[..0] == [];
    RunFromMatchesTotals(initial, turns, 0, 0);
    if AllBelow(initial) {
      RunFromFirstToCross(initial, turns, 0, 0);
    }
  }

  lemma {:induction false} RunFromNeverLowers(scores: seq<int>, turns: seq<int>, k: nat, i: nat)
    requires k <= |turns| && i < |scores|
    requires forall t :: k <= t < |turns| ==> turns[t] >= 0
    ensures var g := RunFrom(scores, turns, k, i);
      |g.scores| == |scores| && forall j :: 0 <= j < |scores| ==> g.scores[j] >= scores[j]
    decreases |turns| - k
  {
    if k < |turns| {
      var s := scores[i := scores[i] + turns[k]];
      if s[i] < WinningScore {
        RunFromNeverLowers(s, turns, k + 1, NextSeat(i, |scores|));
      }
    }
  }

  /** With turn scores that are never negative, no player's total ever decreases. */
  lemma GameNeverLowersScores(initial: seq<int>, turns: seq<int>)
    requires forall t :: 0 <= t < |turns| ==> turns[t] >= 0
    ensures var g := PlayGame(initial, turns);
      |g.scores| == |initial| && forall j :: 0 <= j < |initial| ==> g.scores[j] >= initial[j]
  {
    if initial != [] {
      RunFromNeverLowers(initial, turns, 0, 0);
    }
  }

  /**
   * The turn scores the players' own rules produce are never negative, so in a
   * game whose turns come from the seated players' kinds no total decreases.
   */
  lemma StrategyTurnsNeverLowerScores(initial: seq<int>, kinds: seq<Kind>,
                                      inputs: seq<Strategy.TurnInput>, turns: seq<int>)
    requires |kinds| == |initial| > 0 && |inputs| == |turns|
    requires forall t :: 0 <= t < |turns| ==>
      Strategy.TakeTurn(kinds[Seat(t, |kinds|)], inputs[t]).Over? &&
      turns[t] == Strategy.TakeTurn(kinds[Seat(t, |kinds|)], inputs[t]).score
    ensures var g := PlayGame(initial, turns);
      |g.scores| == |initial| && forall j :: 0 <= j < |initial| ==> g.scores[j] >= initial[j]
  {
    forall t | 0 <= t < |turns| ensures turns[t] >= 0 {
      Strategy.TurnScoreBounds(kinds[Seat(t, |kinds|)], inputs[t]);
    }
    GameNeverLowersScores(initial, turns);
  }

  /** One turn of the loop: add the turn score at seat `i`; win, or pass to the next seat. */
  lemma RunFromStep(scores: seq<int>, turns: seq<int>, k: nat, i: nat)
    requires k < |turns| && i < |scores|
    ensures var s := scores[i := scores[i] + turns[k]];
      RunFrom(scores, turns, k, i) ==
        if s[i] >= WinningScore then Game(s, k + 1, Some(i))
        else RunFrom(s, turns, k + 1, NextSeat(i, |scores|))
  {
  }

  /** `player.setScore(player.getScore() + turnScore)` for the player at seat `i`. */
  method AddTurnScore(roster: seq<Player>, i: nat, turnScore: int)
    requires Distinct(roster) && i < |roster|
    modifies roster[i]
    ensures Scores(roster) == old(Scores(roster))[i := old(Scores(roster))[i] + turnScore]
    ensures forall j :: 0 <= j < |roster| ==> roster[j].name == old(roster[j].name)
  {
    var player := roster[i];
    player.SetScore(player.score + turnScore);
  }

  /**
   * One turn of the `for` loop's body for the player at seat `i`: the turn
   * score is added, and the game is won when the new total reaches the
   * winning score; otherwise play passes to the next seat.
   */
  method PlayTurn(roster: seq<Player>, turns: seq<int>, k: nat, i: nat) returns (won: bool)
    requires Distinct(roster) && k < |turns| && i < |roster|
    modifies roster[i]
    ensures won ==> Game(Scores(roster), k + 1, Some(i)) == RunFrom(old(Scores(roster)), turns, k, i)
    ensures !won ==>
      RunFrom(Scores(roster), turns, k + 1, NextSeat(i, |roster|)) == RunFrom(old(Scores(roster)), turns, k, i)
    ensures forall j :: 0 <= j < |roster| ==> roster[j].name == old(roster[j].name)
  {
    RunFromStep(Scores(roster), turns, k, i);
    AddTurnScore(roster, i, turns[k]);
    won := roster[i].score >= WinningScore;
  }

  /**
   * One pass of the `for` loop over the roster, from seat 0, starting at turn
   * `k`: each seat in order adds its turn score, and the pass stops at a win
   * or when the supplied turns run out.
   */
  method PlayRound(roster: seq<Player>, turns: seq<int>, k: nat) returns (next: nat, winner: Option<nat>)
    requires Distinct(roster) && |roster| > 0 && k < |turns|
    modifies set p | p in roster
    ensures k < next <= |turns|
    ensures winner.None? ==>
      RunFrom(Scores(roster), turns, next, 0) == RunFrom(old(Scores(roster)), turns, k, 0)
    ensures winner.Some? ==>
      Game(Scores(roster), next, winner) == RunFrom(old(Scores(roster)), turns, k, 0)
    ensures forall j :: 0 <= j < |roster| ==> roster[j].name == old(roster[j].name)
  {
    ghost var goal := RunFrom(Scores(roster), turns, k, 0);
    next := k;
    winner := None;
    var i := 0;
    while i < |roster|
      invariant 0 <= i <= |roster|
      invariant next == k + i <= |turns|
      invariant i < |roster| ==> RunFrom(Scores(roster), turns, next, i) == goal
      invariant i == |roster| ==> RunFrom(Scores(roster), turns, next, 0) == goal
      invariant forall j :: 0 <= j < |roster| ==> roster[j].name == old(roster[j].name)
    {
      if next == |turns| {
        break;
      }
      var won := PlayTurn(roster, turns, next, i);
      next := next + 1;
      if won {
        winner := Some(i);
        return;
      }
      i := i + 1;
    }
  }

  /**
   * The source's game loop over the roster's player objects: rounds in roster
   * order, each turn's score added to the mover's total, and the loop left the
   * moment that total reaches the winning score. `turns` supplies the score
   * each successive `play()` returns.
   */
  method RunGame(roster: seq<Player>, turns: seq<int>) returns (winner: Option<nat>, turnsTaken: nat)
    requires Distinct(roster)
    modifies set p | p in roster
    ensures Game(Scores(roster), turnsTaken, winner) == PlayGame(old(Scores(roster)), turns)
    ensures forall j :: 0 <= j < |roster| ==> roster[j].name == old(roster[j].name)
  {
    winner := None;
    turnsTaken := 0;
    if roster == [] {
      return;
    }
    var won := false;
    var k := 0;
    while !won && k < |turns|
      invariant 0 <= k <= |turns|
      invariant !won ==> winner.None? && RunFrom(Scores(roster), turns, k, 0) == PlayGame(old(Scores(roster)), turns)
      invariant won ==> Game(Scores(roster), k, winner) == PlayGame(old(Scores(roster)), turns)
      invariant forall j :: 0 <= j < |roster| ==> roster[j].name == old(roster[j].name)
      decreases |turns| - k
    {
      k, winner := PlayRound(roster, turns, k);
      won := winner.Some?;
    }
    turnsTaken := k;
  }
}
