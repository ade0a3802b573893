/** The player record shared by every strategy. */
module Players {

  /**
   * Which `play()` a player runs. The source expresses this with one subclass
   * per strategy; `Plain` is the base class, whose `play()` scores nothing.
   */
  datatype Kind = Plain | Human | Random | Fifteen | Odd | Wimp

  class Player {
    var name: string
    var score: int
    const kind: Kind

    /** A new player has the given name and a score of 0. */
    constructor (name: string, kind: Kind)
      ensures this.name == name && score == 0 && this.kind == kind
    {
      this.name := name;
      this.score := 0;
      this.kind := kind;
    }

    method GetName() returns (n: string)
      ensures n == name
    {
      n := name;
    }

    method SetName(newName: string)
      modifies this
      ensures name == newName && score == old(score)
    {
      name := newName;
    }

    method GetScore() returns (s: int)
      ensures s == score
    {
      s := score;
    }

    method SetScore(newScore: int)
      modifies this
      ensures score == newScore && name == old(name)
    {
      score := newScore;
    }

    /** The base class's turn: no points, and nothing changes. */
    method Play() returns (turnScore: int)
      ensures turnScore == 0
    {
      turnScore := 0;
    }
  }

  /** The cumulative scores of a roster, seat by seat. */
  function Scores(roster: seq<Player>): (s: seq<int>)
    reads set p | p in roster
    ensures |s| == |roster|
    ensures forall j :: 0 <= j < |roster| ==> s[j] == roster[j].score
  {
    seq(|roster|, j reads set p | p in roster requires 0 <= j < |roster| => roster[j].score)
  }
}
