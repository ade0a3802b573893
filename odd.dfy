/** The Odd player: keep rolling after an odd face, stop after an even one. */
module Odd {
  import opened Common

  predicate IsEven(r: int) { r % 2 == 0 }

  predicate IsOdd(r: int) { r % 2 == 1 }

  /** The rest of an Odd turn from roll `k` on, with `acc` points already in the turn. */
  function OddFrom(rolls: seq<Face>, k: nat, acc: int): TurnResult
    requires k <= |rolls|
    decreases |rolls| - k
  {
    if k == |rolls| then RanOut
    else if rolls[k] == BustFace then Over(0, k + 1, 0)
    else if IsEven(rolls[k]) then Over(acc + rolls[k], k + 1, 0)
    else OddFrom(rolls, k + 1, acc + rolls[k])
  }

  function OddTurn(rolls: seq<Face>): TurnResult
  {
    OddFrom(rolls, 0, 0)
  }

  lemma {:induction false} OddFromAt(rolls: seq<Face>, k: nat, acc: int, n: nat)
    requires k <= n < |rolls|
    requires acc == Sum(rolls[..k])
    requires forall j :: k <= j < n ==> IsOdd(rolls[j])
    requires !IsOdd(rolls[n])
    ensures OddFrom(rolls, k, acc) ==
      Over(if rolls[n] == BustFace then 0 else Sum(rolls[..n + 1]), n + 1, 0)
    decreases n - k
  {
    SumPrefixStep(rolls, k);
    if k < n {
      OddFromAt(rolls, k + 1, acc + rolls[k], n);
    }
  }

  lemma {:induction false} OddFromAllOdd(rolls: seq<Face>, k: nat, acc: int)
    requires k <= |rolls|
    requires forall j :: k <= j < |rolls| ==> IsOdd(rolls[j])
    ensures OddFrom(rolls, k, acc) == RanOut
    decreases |rolls| - k
  {
    if k < |rolls| {
      OddFromAllOdd(rolls, k + 1, acc + rolls[k]);
    }
  }

  /**
   * An Odd turn, for every roll sequence: it ends at the first face that is not
   * odd. If that face is the bust face the turn scores 0; otherwise (a 2 or a 4)
   * it scores the sum of the run of odd faces and that even face. A sequence of
   * odd faces only runs out.
   */
  lemma OddTurnEndsAtFirstEven(rolls: seq<Face>, n: nat)
    requires n < |rolls|
    requires forall j :: 0 <= j < n ==> IsOdd(rolls[j])
    requires !IsOdd(rolls[n])
    ensures OddTurn(rolls) ==
      Over(if rolls[n] == BustFace then 0 else Sum(rolls[..n + 1]), n + 1, 0)
  {
    OddFromAt(rolls, 0, 0, n);
  }

  lemma OddTurnRunsOut(rolls: seq<Face>)
    requires forall j :: 0 <= j < |rolls| ==> IsOdd(rolls[j])
    ensures OddTurn(rolls) == RanOut
  {
    OddFromAllOdd(rolls, 0, 0);
  }

  lemma {:induction false} OddFromFacts(rolls: seq<Face>, k: nat, acc: int)
    requires k <= |rolls|
    requires forall j :: 0 <= j < k ==> IsOdd(rolls[j])
    requires acc == Sum(rolls[..k])
    ensures var r := OddFrom(rolls, k, acc);
      r.Over? ==>
        && 1 <= r.rollsUsed <= |rolls| && r.answersUsed == 0
        && (forall j :: 0 <= j < r.rollsUsed - 1 ==> IsOdd(rolls[j]))
        && !IsOdd(rolls[r.rollsUsed - 1])
        && r.score == (if rolls[r.rollsUsed - 1] == BustFace then 0 else Sum(rolls[..r.rollsUsed]))
    decreases |rolls| - k
  {
    if k < |rolls| {
      SumPrefixStep(rolls, k);
      if IsOdd(rolls[k]) {
        OddFromFacts(rolls, k + 1, acc + rolls[k]);
      }
    }
  }

  /**
   * The same from the result's side: a finished Odd turn is a run of odd faces
   * closed by one face that is not odd, and its score is 0 for a bust or else
   * the sum of all of the turn's rolls, at least 1 per roll.
   */
  lemma OddTurnFacts(rolls: seq<Face>)
    ensures var r := OddTurn(rolls);
      r.Over? ==>
        && 1 <= r.rollsUsed <= |rolls| && r.answersUsed == 0
        && (forall j :: 0 <= j < r.rollsUsed - 1 ==> IsOdd(rolls[j]))
        && !IsOdd(rolls[r.rollsUsed - 1])
        && (rolls[r.rollsUsed - 1] == BustFace ==> r.score == 0)
        && (rolls[r.rollsUsed - 1] != BustFace ==>
              r.score == Sum(rolls[..r.rollsUsed]) && r.rollsUsed <= r.score <= 5 * r.rollsUsed)
  {
    OddFromFacts(rolls, 0, 0);
    var r := OddTurn(rolls);
    if r.Over? && rolls[r.rollsUsed - 1] != BustFace {
      forall j | 0 <= j < r.rollsUsed ensures rolls[..r.rollsUsed][j] != BustFace {
        assert j < r.rollsUsed - 1 ==> IsOdd(rolls[j]);
      }
      SafeRollsSum(rolls[..r.rollsUsed]);
    }
  }

  /** The worked example: 3 and 5 continue, 2 stops, the turn scores 10. */
  lemma OddTurnExample()
    ensures OddTurn([3, 5, 2]) == Over(10, 3, 0)
  {
    OddTurnEndsAtFirstEven([3, 5, 2], 2);
    assert [3, 5, 2][..3] == [3, 5, 2];
  }

  /** The turn state an Odd player keeps in fields between the timer callbacks. */
  class OddPlayer {
    var turnScore: int
    var continueTurn: bool

    constructor ()
      ensures turnScore == 0 && !continueTurn
    {
      turnScore := 0;
      continueTurn := false;
    }

    /**
     * The timer callback: a bust ends the turn at 0; any other face is added,
     * and an even face ends the turn while an odd one leaves it running.
     */
    method ContinuePlay(roll: Face)
      modifies this
      ensures roll == BustFace ==> turnScore == 0 && !continueTurn
      ensures roll != BustFace ==> turnScore == old(turnScore) + roll
      ensures roll != BustFace ==> continueTurn == (old(continueTurn) && IsOdd(roll))
    {
      if roll == BustFace {
        turnScore := 0;
        continueTurn := false;
        return;
      }
      turnScore := turnScore + roll;
      if IsEven(roll) {
        continueTurn := false;
      }
    }

    /** One turn: reset the turn state, then run the callback chain as a loop. */
    method Play(rolls: seq<Face>) returns (r: TurnResult)
      modifies this
      ensures r == OddTurn(rolls)
      ensures r.Over? ==> turnScore == r.score && !continueTurn
      ensures r.RanOut? ==> continueTurn
    {
      turnScore := 0;
      continueTurn := true;
      var k := 0;
      while continueTurn && k < |rolls|
        invariant 0 <= k <= |rolls|
        invariant continueTurn ==> OddFrom(rolls, k, turnScore) == OddTurn(rolls)
        invariant !continueTurn ==> OddTurn(rolls) == Over(turnScore, k, 0)
      {
        ContinuePlay(rolls[k]);
        k := k + 1;
      }
      if continueTurn {
        r := RanOut;
      } else {
        r := Over(turnScore, k, 0);
      }
    }
  }
}
