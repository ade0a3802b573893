/** The Wimp player: one roll per turn, then stop. */
module Wimp {
  import opened Common

  /** The turn the Wimp rule gives on a roll sequence: only the first roll is used. */
  function WimpTurn(rolls: seq<Face>): TurnResult
  {
    if rolls == [] then RanOut
    else Over(if rolls[0] == BustFace then 0 else rolls[0], 1, 0)
  }

  /**
   * What a Wimp turn amounts to: exactly one roll, a bust scores 0 and any
   * other face scores itself, so the score is 0 or in 1..5.
   */
  lemma WimpTurnFacts(rolls: seq<Face>)
    ensures WimpTurn(rolls).RanOut? <==> rolls == []
    ensures WimpTurn(rolls).Over? ==>
      WimpTurn(rolls).rollsUsed == 1 && WimpTurn(rolls).answersUsed == 0
    ensures rolls != [] && rolls[0] == BustFace ==> WimpTurn(rolls).score == 0
    ensures rolls != [] && rolls[0] != BustFace ==>
      WimpTurn(rolls).score == Sum(rolls[..1]) && 1 <= WimpTurn(rolls).score <= 5
  {
    if rolls != [] {
      assert rolls[..1] == [rolls[0]];
    }
  }

  /** The turn state a Wimp player keeps in fields between the timer callbacks. */
  class WimpPlayer {
    var turnScore: int
    var continueTurn: bool

    constructor ()
      ensures turnScore == 0 && !continueTurn
    {
      turnScore := 0;
      continueTurn := false;
    }

    /** The timer callback: a bust leaves 0, any other face is the turn score; the turn always ends. */
    method DoSingleRoll(roll: Face)
      modifies this
      ensures turnScore == (if roll == BustFace then 0 else roll)
      ensures !continueTurn
    {
      if roll == BustFace {
        turnScore := 0;
      } else {
        turnScore := roll;
      }
      continueTurn := false;
    }

    /**
     * One turn: reset the turn state, then let the single callback roll. With no
     * roll supplied the source would wait for ever; the model reports `RanOut`.
     */
    method Play(rolls: seq<Face>) returns (r: TurnResult)
      modifies this
      ensures r == WimpTurn(rolls)
      ensures r.Over? ==> turnScore == r.score && !continueTurn
      ensures r.RanOut? ==> turnScore == 0 && continueTurn
    {
      turnScore := 0;
      continueTurn := true;
      if rolls == [] {
        return RanOut;
      }
      DoSingleRoll(rolls[0]);
      r := Over(turnScore, 1, 0);
    }
  }
}
