/** The die: a side count fixed at construction and a draw from 1 to that count. */
module Dice {
  import opened Common

  /** A legal side count: at least one side. */
  type Sides = n: int | n >= 1 witness 1

  class Dice {
    /** Number of sides; a constant, so no roll can change it. */
    const sides: Sides

    constructor (sides: Sides)
      ensures this.sides == sides
    {
      this.sides := sides;
    }

    /**
     * The checked construction: a side count below one is refused (the source
     * throws an illegal-argument exception) and no die exists.
     */
    static method Create(sides: int) returns (d: Option<Dice>)
      ensures d.None? <==> sides < 1
      ensures d.Some? ==> fresh(d.value) && d.value.sides == sides
    {
      if sides < 1 {
        d := None;
      } else {
        var die := new Dice(sides);
        d := Some(die);
      }
    }

    /** A draw from the shared random source, modelled as a free choice in range. */
    method Roll() returns (r: int)
      ensures 1 <= r <= sides
    {
      assert 1 <= 1 <= sides;
      r :| 1 <= r <= sides;
    }

    method GetSides() returns (n: int)
      ensures n == sides && n >= 1
    {
      n := sides;
    }
  }
}
