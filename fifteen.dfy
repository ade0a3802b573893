/** The Fifteen player: keep rolling while the turn score is at most 15. */
module Fifteen {
  import opened Common

  /** The turn score up to which the Fifteen player rolls again. */
  const Threshold: int := 15

  /** The rest of a Fifteen turn from roll `k` on, with `acc` points already in the turn. */
  function FifteenFrom(rolls: seq<Face>, k: nat, acc: int): TurnResult
    requires k <= |rolls|
    decreases |rolls| - k
  {
    if acc > Threshold then Over(acc, k, 0)
    else if k == |rolls| then RanOut
    else if rolls[k] == BustFace then Over(0, k + 1, 0)
    else FifteenFrom(rolls, k + 1, acc + rolls[k])
  }

  function FifteenTurn(rolls: seq<Face>): TurnResult
  {
    FifteenFrom(rolls, 0, 0)
  }

  /** No bust among the first `n` rolls, and their sum is at most the threshold. */
  predicate StillRolling(rolls: seq<Face>, n: nat)
    requires n <= |rolls|
  {
    (forall j :: 0 <= j < n ==> rolls[j] != BustFace) && Sum(rolls[..n]) <= Threshold
  }

  lemma {:induction false} FifteenFromFacts(rolls: seq<Face>, k: nat, acc: int)
    requires k <= |rolls|
    requires forall j :: 0 <= j < k ==> rolls[j] != BustFace
    requires acc == Sum(rolls[..k])
    requires k == 0 || Sum(rolls[..k - 1]) <= Threshold
    ensures var r := FifteenFrom(rolls, k, acc);
      && (r.RanOut? ==> StillRolling(rolls, |rolls|))
      && (r.Over? ==>
            && 1 <= r.rollsUsed <= |rolls| && r.answersUsed == 0
            && StillRolling(rolls, r.rollsUsed - 1)
            && (rolls[r.rollsUsed - 1] == BustFace ==> r.score == 0)
            && (rolls[r.rollsUsed - 1] != BustFace ==>
                  r.score == Sum(rolls[..r.rollsUsed]) && Threshold < r.score))
    decreases |rolls| - k
  {
    if acc > Threshold {
      assert k != 0;
    } else if k < |rolls| {
      SumPrefixStep(rolls, k);
      if rolls[k] != BustFace {
        FifteenFromFacts(rolls, k + 1, acc + rolls[k]);
      }
    }
  }

  /**
   * What a Fifteen turn amounts to, for every roll sequence. A finished turn
   * either busts on its last roll, scoring 0, or stops with a score above 15:
   * the sum of its rolls. Before its last roll there was no bust and the score
   * was at most 15, and since a safe face is at most 5 a non-bust score is at
   * most 20. A turn runs out only when the whole sequence is safe and sums to
   * at most 15.
   */
  lemma FifteenTurnFacts(rolls: seq<Face>)
    ensures var r := FifteenTurn(rolls);
      && (r.RanOut? ==> StillRolling(rolls, |rolls|))
      && (r.Over? ==>
            && 1 <= r.rollsUsed <= |rolls| && r.answersUsed == 0
            && StillRolling(rolls, r.rollsUsed - 1)
            && (rolls[r.rollsUsed - 1] == BustFace ==> r.score == 0)
            && (rolls[r.rollsUsed - 1] != BustFace ==>
                  r.score == Sum(rolls[..r.rollsUsed]) && 16 <= r.score <= 20 &&
                  r.score <= 5 * r.rollsUsed))
  {
    FifteenFromFacts(rolls, 0, 0);
    var r := FifteenTurn(rolls);
    if r.Over? && rolls[r.rollsUsed - 1] != BustFace {
      SumPrefixStep(rolls, r.rollsUsed - 1);
      SafeRollsSum(rolls[..r.rollsUsed]);
    }
  }

  /** The source's `play()`: a loop that rolls while the turn score is at most 15. */
  method Play(rolls: seq<Face>) returns (r: TurnResult)
    ensures r == FifteenTurn(rolls)
  {
    var turn: int := 0;
    var k := 0;
    while turn <= Threshold
      invariant 0 <= k <= |rolls|
      invariant FifteenFrom(rolls, k, turn) == FifteenTurn(rolls)
      decreases |rolls| - k
    {
      if k == |rolls| {
        return RanOut;
      }
      var roll := rolls[k];
      k := k + 1;
      if roll == BustFace {
        return Over(0, k, 0);
      }
      turn := turn + roll;
    }
    r := Over(turn, k, 0);
  }
}
