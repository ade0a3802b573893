/**
 * The polymorphic `play()` call the game loops make: each player kind's turn
 * rule applied to that turn's supplied input.
 */
module Strategy {
  import opened Common
  import Players
  import Wimp
  import Odd
  import Fifteen
  import Random
  import Human

  /** Everything a turn may consume: die rolls, coin flips and answer lines. */
  datatype TurnInput = TurnInput(rolls: seq<Face>, coins: seq<Coin>, lines: seq<string>)

  /**
   * The turn of a player of the given kind. The base player rolls nothing and
   * scores 0; every strategy kind that finishes its turn has rolled at least
   * once, within the supplied rolls.
   */
  function TakeTurn(kind: Players.Kind, input: TurnInput): (r: TurnResult)
    ensures (r.Over? && r.rollsUsed == 0) <==> kind == Players.Plain
    ensures r.Over? ==> r.rollsUsed <= |input.rolls|
  {
    match kind
    case Plain => Over(0, 0, 0)
    case Human =>
      Human.HumanTurnFacts(input.rolls, input.lines);
      Human.HumanTurn(input.rolls, input.lines)
    case Random =>
      Random.RandomTurnFacts(input.rolls, input.coins);
      Random.RandomTurn(input.rolls, input.coins)
    case Fifteen =>
      Fifteen.FifteenTurnFacts(input.rolls);
      Fifteen.FifteenTurn(input.rolls)
    case Odd =>
      Odd.OddTurnFacts(input.rolls);
      Odd.OddTurn(input.rolls)
    case Wimp =>
      Wimp.WimpTurnFacts(input.rolls);
      Wimp.WimpTurn(input.rolls)
  }

  /**
   * Every kind's finished turn scores at least 0 (a bust adds nothing, it never
   * subtracts) and at most 5 per roll; the Wimp scores at most 5 and the
   * Fifteen player at most 20.
   */
  lemma TurnScoreBounds(kind: Players.Kind, input: TurnInput)
    ensures var r := TakeTurn(kind, input);
      r.Over? ==>
        && 0 <= r.score <= 5 * r.rollsUsed
        && (kind == Players.Wimp ==> r.score <= 5)
        && (kind == Players.Fifteen ==> r.score <= 20)
  {
    match kind
    case Plain =>
    case Human => Human.HumanTurnFacts(input.rolls, input.lines);
    case Random => Random.RandomTurnFacts(input.rolls, input.coins);
    case Fifteen => Fifteen.FifteenTurnFacts(input.rolls);
    case Odd => Odd.OddTurnFacts(input.rolls);
    case Wimp => Wimp.WimpTurnFacts(input.rolls);
  }
}
