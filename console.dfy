/**
 * The console version of the game: a numbered menu builds the roster, then
 * the shared game loop runs on it with every score starting at 0.
 */
module ConsoleGame {
  import opened Common
  import opened Players
  import GameLoop
  import BulldogGame

  /** One player's setup answers: the menu number typed and the name line typed. */
  datatype Entry = Entry(selection: int, name: string)

  /** A roster place the setup creates: the strategy chosen and the name given. */
  datatype Recruit = Recruit(kind: Kind, name: string)

  /** The menu lines, in the order of their numbers 1..5. */
  const MenuOptions: seq<string> :=
    ["Human Player", "Random Player", "Fifteen Player", "Odd Player", "Wimp Player"]

  /** The menu number's player kind; a number outside the menu creates nobody. */
  function KindOfSelection(selection: int): (k: Option<Kind>)
    ensures k.Some? <==> 1 <= selection <= |MenuOptions|
    ensures k.Some? ==> k.value != Plain
  {
    if selection == 1 then Some(Human)
    else if selection == 2 then Some(Random)
    else if selection == 3 then Some(Fifteen)
    else if selection == 4 then Some(Odd)
    else if selection == 5 then Some(Wimp)
    else None
  }

  /**
   * Each menu number creates the kind its menu line names, and different
   * numbers create different kinds; every strategy kind is on the menu.
   */
  lemma SelectionMatchesMenu(selection: int, other: int, kind: Kind)
    ensures 1 <= selection <= 5 ==>
      BulldogGame.TypeName(KindOfSelection(selection).value) == MenuOptions[selection - 1]
    ensures KindOfSelection(selection).Some? && KindOfSelection(selection) == KindOfSelection(other) ==>
      selection == other
    ensures kind != Plain ==> exists n :: 1 <= n <= 5 && KindOfSelection(n) == Some(kind)
  {
    if kind != Plain {
      var n := match kind
        case Human => 1 case Random => 2 case Fifteen => 3 case Odd => 4 case Wimp => 5
        case Plain => 1;
      assert KindOfSelection(n) == Some(kind);
    }
  }

  /** The places the setup loop appends, in entry order; invalid numbers add nothing. */
  function Recruits(entries: seq<Entry>): (r: seq<Recruit>)
    ensures |r| <= |entries|
    ensures forall j :: 0 <= j < |r| ==> r[j].kind != Plain
    decreases |entries|
  {
    if entries == [] then []
    else
      var prev := Recruits(entries[..|entries| - 1]);
      var e := entries[|entries| - 1];
      match KindOfSelection(e.selection)
      case None => prev
      case Some(k) => prev + [Recruit(k, e.name)]
  }

  predicate AllValid(entries: seq<Entry>)
  {
    forall j :: 0 <= j < |entries| ==> KindOfSelection(entries[j].selection).Some?
  }

  /** The setup of two batches of entries is the first batch's places followed by the second's. */
  lemma {:induction false} RecruitsAppend(a: seq<Entry>, b: seq<Entry>)
    ensures Recruits(a + b) == Recruits(a) + Recruits(b)
    decreases |b|
  {
    if b == [] {
      assert a + b == a;
    } else {
      var b' := b[..|b| - 1];
      assert (a + b)[..|a + b| - 1] == a + b';
      assert (a + b)[|a + b| - 1] == b[|b| - 1];
      RecruitsAppend(a, b');
    }
  }

  /**
   * Every entry with a menu number creates one place, with that entry's kind and
   * name at the same position, exactly when no number is invalid; otherwise
   * some entry creates nobody and the roster is shorter.
   */
  lemma {:induction false} RecruitsOfValidEntries(entries: seq<Entry>)
    ensures AllValid(entries) <==> |Recruits(entries)| == |entries|
    ensures AllValid(entries) ==> forall j :: 0 <= j < |entries| ==>
      Recruits(entries)[j] == Recruit(KindOfSelection(entries[j].selection).value, entries[j].name)
    decreases |entries|
  {
    if entries != [] {
      var prev := entries[..|entries| - 1];
      var e := entries[|entries| - 1];
      RecruitsOfValidEntries(prev);
      assert AllValid(entries) <==> AllValid(prev) && KindOfSelection(e.selection).Some? by {
        assert forall j :: 0 <= j < |prev| ==> prev[j] == entries[j];
      }
    }
  }

  /**
   * The setup loop: one new player per entry whose number is on the menu,
   * appended in entry order with the kind and name chosen and a score of 0.
   */
  method Setup(entries: seq<Entry>) returns (roster: seq<Player>)
    ensures |roster| == |Recruits(entries)|
    ensures forall j :: 0 <= j < |roster| ==>
      && fresh(roster[j])
      && roster[j].kind == Recruits(entries)[j].kind
      && roster[j].name == Recruits(entries)[j].name
      && roster[j].score == 0
    ensures Distinct(roster)
  {
    roster := [];
    var i := 0;
    while i < |entries|
      invariant 0 <= i <= |entries|
      invariant |roster| == |Recruits(entries[..i])|
      invariant forall j :: 0 <= j < |roster| ==>
        && fresh(roster[j])
        && roster[j].kind == Recruits(entries[..i])[j].kind
        && roster[j].name == Recruits(entries[..i])[j].name
        && roster[j].score == 0
      invariant Distinct(roster)
    {
      assert entries[..i + 1][..i] == entries[..i];
      var kind := KindOfSelection(entries[i].selection);
      if kind.Some? {
        var player := new Player(entries[i].name, kind.value);
        roster := roster + [player];
      }
      i := i + 1;
    }
    assert entries[..i] == entries;
  }

  /** Every score starts at 0. */
  function Zeros(n: nat): (s: seq<int>)
    ensures |s| == n && forall j :: 0 <= j < n ==> s[j] == 0
  {
    seq(n, _ => 0)
  }

  /**
   * The whole console program: set up the roster, then run the game loop on
   * it from all-zero scores with the supplied turn scores.
   */
  method PlayConsoleGame(entries: seq<Entry>, turns: seq<int>)
    returns (roster: seq<Player>, winner: Option<nat>, turnsTaken: nat)
    ensures |roster| == |Recruits(entries)| && Distinct(roster)
    ensures forall j :: 0 <= j < |roster| ==>
      && roster[j].kind == Recruits(entries)[j].kind
      && roster[j].name == Recruits(entries)[j].name
    ensures GameLoop.Game(Scores(roster), turnsTaken, winner) ==
            GameLoop.PlayGame(Zeros(|roster|), turns)
  {
    roster := Setup(entries);
    assert Scores(roster) == Zeros(|roster|);
    winner, turnsTaken := GameLoop.RunGame(roster, turns);
  }
}
