/** The Random player: after each safe roll a coin decides; 0 stops, 1 rolls again. */
module Random {
  import opened Common

  /**
   * The rest of a Random turn from roll `k` on, with `acc` points already in
   * the turn. Coin `k` is flipped after roll `k`, so a turn that busts on roll
   * `k` has used `k` coins.
   */
  function RandomFrom(rolls: seq<Face>, coins: seq<Coin>, k: nat, acc: int): TurnResult
    requires k <= |rolls|
    decreases |rolls| - k
  {
    if k == |rolls| then RanOut
    else if rolls[k] == BustFace then Over(0, k + 1, k)
    else if k >= |coins| then RanOut
    else if coins[k] == 0 then Over(acc + rolls[k], k + 1, k + 1)
    else RandomFrom(rolls, coins, k + 1, acc + rolls[k])
  }

  function RandomTurn(rolls: seq<Face>, coins: seq<Coin>): TurnResult
  {
    RandomFrom(rolls, coins, 0, 0)
  }

  /** The first `n` rolls are safe and the first `n` coins all said "roll again". */
  predicate KeptRolling(rolls: seq<Face>, coins: seq<Coin>, n: nat)
  {
    n <= |rolls| && n <= |coins| &&
    forall j :: 0 <= j < n ==> rolls[j] != BustFace && coins[j] == 1
  }

  lemma {:induction false} RandomFromFacts(rolls: seq<Face>, coins: seq<Coin>, k: nat, acc: int)
    requires KeptRolling(rolls, coins, k)
    requires acc == Sum(rolls[..k])
    ensures var r := RandomFrom(rolls, coins, k, acc);
      r.Over? ==>
        && 1 <= r.rollsUsed <= |rolls|
        && KeptRolling(rolls, coins, r.rollsUsed - 1)
        && (rolls[r.rollsUsed - 1] == BustFace ==>
              r.score == 0 && r.answersUsed == r.rollsUsed - 1)
        && (rolls[r.rollsUsed - 1] != BustFace ==>
              && r.answersUsed == r.rollsUsed <= |coins|
              && coins[r.rollsUsed - 1] == 0
              && r.score == Sum(rolls[..r.rollsUsed]))
    decreases |rolls| - k
  {
    if k < |rolls| && rolls[k] != BustFace && k < |coins| {
      SumPrefixStep(rolls, k);
      if coins[k] != 0 {
        RandomFromFacts(rolls, coins, k + 1, acc + rolls[k]);
      }
    }
  }

  /**
   * What a finished Random turn amounts to: every roll before the last was safe
   * and was followed by a coin of 1. A last roll of 6 scores 0 whatever was
   * accumulated; otherwise the last coin was 0 and the score is the sum of all
   * the turn's rolls, at least 1 per roll.
   */
  lemma RandomTurnFacts(rolls: seq<Face>, coins: seq<Coin>)
    ensures var r := RandomTurn(rolls, coins);
      r.Over? ==>
        && 1 <= r.rollsUsed <= |rolls|
        && KeptRolling(rolls, coins, r.rollsUsed - 1)
        && (rolls[r.rollsUsed - 1] == BustFace ==>
              r.score == 0 && r.answersUsed == r.rollsUsed - 1)
        && (rolls[r.rollsUsed - 1] != BustFace ==>
              && r.answersUsed == r.rollsUsed <= |coins|
              && coins[r.rollsUsed - 1] == 0
              && r.score == Sum(rolls[..r.rollsUsed])
              && r.rollsUsed <= r.score <= 5 * r.rollsUsed)
  {
    RandomFromFacts(rolls, coins, 0, 0);
    var r := RandomTurn(rolls, coins);
    if r.Over? && rolls[r.rollsUsed - 1] != BustFace {
      SafeRollsSum(rolls[..r.rollsUsed]);
    }
  }

  lemma {:induction false} RandomFromRunsOut(rolls: seq<Face>, coins: seq<Coin>, k: nat, acc: int)
    requires k <= |rolls|
    requires forall j :: k <= j < |rolls| ==> rolls[j] != BustFace
    requires forall j :: k <= j < |rolls| && j < |coins| ==> coins[j] == 1
    ensures RandomFrom(rolls, coins, k, acc) == RanOut
    decreases |rolls| - k
  {
    if k < |rolls| && k < |coins| {
      RandomFromRunsOut(rolls, coins, k + 1, acc + rolls[k]);
    }
  }

  /** The converse: with no bust and no coin of 0 in the supplied input, the turn runs out. */
  lemma RandomTurnRunsOut(rolls: seq<Face>, coins: seq<Coin>)
    requires forall j :: 0 <= j < |rolls| ==> rolls[j] != BustFace
    requires forall j :: 0 <= j < |rolls| && j < |coins| ==> coins[j] == 1
    ensures RandomTurn(rolls, coins) == RanOut
  {
    RandomFromRunsOut(rolls, coins, 0, 0);
  }

  /** The source's `play()`: roll until a 6 or a coin of 0. */
  method Play(rolls: seq<Face>, coins: seq<Coin>) returns (r: TurnResult)
    ensures r == RandomTurn(rolls, coins)
  {
    var turn: int := 0;
    var k := 0;
    while true
      invariant 0 <= k <= |rolls|
      invariant RandomFrom(rolls, coins, k, turn) == RandomTurn(rolls, coins)
      decreases |rolls| - k
    {
      if k == |rolls| {
        return RanOut;
      }
      var roll := rolls[k];
      if roll == BustFace {
        return Over(0, k + 1, k);
      }
      turn := turn + roll;
      if k >= |coins| {
        return RanOut;
      }
      var coin := coins[k];
      k := k + 1;
      if coin == 0 {
        return Over(turn, k, k);
      }
    }
  }
}
