/**
 * The windowed game's rules outside the game loop: the roster setup with its
 * name check, type selection and button rules, and the player-type names.
 */
module BulldogGame {
  import opened Common
  import opened Players
  import GameLoop

  /** The type strings the setup screen's selector offers. */
  const TypeOptions: seq<string> :=
    ["Human Player", "Random Player", "Fifteen Player", "Odd Player", "Wimp Player"]

  /**
   * The display name of a player kind: one of the selector's strings for
   * every strategy kind, and "Unknown Player", which it does not offer, for
   * the base class.
   */
  function TypeName(kind: Kind): (name: string)
    ensures name in TypeOptions <==> kind != Plain
  {
    match kind
    case Human => "Human Player"
    case Random => "Random Player"
    case Fifteen => "Fifteen Player"
    case Odd => "Odd Player"
    case Wimp => "Wimp Player"
    case Plain => "Unknown Player"
  }

  /** The kind the type selector's string creates; any other string creates no player. */
  function KindOfTypeName(typeName: string): (k: Option<Kind>)
    ensures k.Some? <==> typeName in TypeOptions
    ensures k.Some? ==> k.value != Plain
  {
    if typeName == "Human Player" then Some(Human)
    else if typeName == "Random Player" then Some(Random)
    else if typeName == "Fifteen Player" then Some(Fifteen)
    else if typeName == "Odd Player" then Some(Odd)
    else if typeName == "Wimp Player" then Some(Wimp)
    else None
  }

  /**
   * Creating from a type string and naming the type agree: every strategy kind
   * is created from exactly its own display name, and the "Unknown Player"
   * name creates nothing.
   */
  lemma TypeNameRoundTrip(kind: Kind, typeName: string)
    ensures kind != Plain ==> KindOfTypeName(TypeName(kind)) == Some(kind)
    ensures KindOfTypeName(TypeName(Plain)) == None
    ensures KindOfTypeName(typeName) == Some(kind) ==> kind != Plain && TypeName(kind) == typeName
  {
  }

  /** The characters `String.trim()` removes from both ends: code points up to the space. */
  predicate IsTrimmed(c: char) { c <= ' ' }

  function TrimStart(s: string): (r: string)
    ensures |r| <= |s| && r == s[|s| - |r|..]
    ensures r != [] ==> !IsTrimmed(r[0])
    ensures forall j :: 0 <= j < |s| - |r| ==> IsTrimmed(s[j])
  {
    if s != [] && IsTrimmed(s[0]) then TrimStart(s[1..]) else s
  }

  function TrimEnd(s: string): (r: string)
    ensures |r| <= |s| && r == s[..|r|]
    ensures r != [] ==> !IsTrimmed(r[|r| - 1])
    ensures forall j :: |r| <= j < |s| ==> IsTrimmed(s[j])
  {
    if s != [] && IsTrimmed(s[|s| - 1]) then TrimEnd(s[..|s| - 1]) else s
  }

  /** `String.trim()`. */
  function Trim(s: string): string
  {
    TrimEnd(TrimStart(s))
  }

  /** A trimmed name is a contiguous piece of the text with no blank at either end. */
  lemma TrimIsInnerSlice(s: string)
    ensures |s| - |TrimStart(s)| + |Trim(s)| <= |s|
    ensures Trim(s) == s[|s| - |TrimStart(s)|..|s| - |TrimStart(s)| + |Trim(s)|]
    ensures Trim(s) != [] ==> !IsTrimmed(Trim(s)[0]) && !IsTrimmed(Trim(s)[|Trim(s)| - 1])
  {
    var u := TrimStart(s);
    var a := |s| - |u|;
    var t := TrimEnd(u);
    assert u == s[a..];
    assert t == u[..|t|];
    PrefixOfSuffix(s, a, |t|);
    if t != [] {
      assert t[0] == u[0];
    }
  }

  lemma PrefixOfSuffix(s: string, a: nat, n: nat)
    requires a + n <= |s|
    ensures s[a..][..n] == s[a..a + n]
  {
  }

  /** The trimmed name is empty exactly when the text holds only blanks: the name the setup rejects. */
  lemma TrimEmptyIff(s: string)
    ensures Trim(s) == [] <==> forall j :: 0 <= j < |s| ==> IsTrimmed(s[j])
  {
    var u := TrimStart(s);
    if u != [] {
      assert u[0] == s[|s| - |u|];
      assert !IsTrimmed(u[0]);
    }
  }

  /** The setup screen's roster size and the enabled state of its two buttons. */
  datatype SetupState = SetupState(size: nat, addEnabled: bool, startEnabled: bool)

  /**
   * The button rule run after an add, on the new size: start is enabled for a
   * size in 2..7, adding is disabled above 7, and otherwise nothing changes.
   */
  function ButtonsAfterAdd(s: SetupState): (r: SetupState)
    ensures r.size == s.size
    ensures r.startEnabled <==> s.startEnabled || 2 <= s.size <= 7
    ensures r.addEnabled <==> s.addEnabled && s.size <= 7
  {
    if 2 <= s.size <= 7 then s.(startEnabled := true)
    else if s.size > 7 then s.(addEnabled := false)
    else s
  }

  /** The rule run after a removal: start enabled exactly for 2..7 players, adding enabled. */
  function ButtonsAfterRemove(s: SetupState): (r: SetupState)
    ensures r.size == s.size && r.addEnabled
    ensures s.size <= 7 ==> SetupWithinBounds(r)
  {
    SetupState(s.size, true, 2 <= s.size <= 7)
  }

  class BulldogGame {
    var players: seq<Player>
    var addEnabled: bool
    var startEnabled: bool

    /**
     * No player is listed twice, the roster stays within 7 with start enabled
     * exactly for 2..7, and adding is enabled exactly below 7.
     */
    ghost predicate Valid()
      reads this
    {
      Distinct(players) && SetupWithinBounds(State()) && (addEnabled <==> |players| < 7)
    }

    function State(): SetupState
      reads this
    {
      SetupState(|players|, addEnabled, startEnabled)
    }

    /** An empty roster; the add button starts enabled and the start button disabled. */
    constructor ()
      ensures Valid() && players == [] && addEnabled && !startEnabled
    {
      players := [];
      addEnabled := true;
      startEnabled := false;
    }

    /**
     * The add button, which fires only while enabled. A name that is blank
     * after trimming is refused and nothing changes. Otherwise a known type
     * string appends a new player of that kind with the trimmed name, and the
     * corrected button rule runs on the new size.
     */
    method AddPlayer(nameText: string, typeName: string)
      requires Valid() && addEnabled
      modifies this
      ensures Valid()
      ensures Trim(nameText) == [] ==>
        players == old(players) && State() == old(State())
      ensures Trim(nameText) != [] && KindOfTypeName(typeName).None? ==>
        players == old(players)
      ensures Trim(nameText) != [] && KindOfTypeName(typeName).Some? ==>
        && |players| == |old(players)| + 1
        && players[..|old(players)|] == old(players)
        && fresh(players[|players| - 1])
        && players[|players| - 1].name == Trim(nameText)
        && players[|players| - 1].kind == KindOfTypeName(typeName).value
        && players[|players| - 1].score == 0
      ensures Trim(nameText) != [] ==>
        State() == ButtonsAfterAddCorrected(SetupState(|players|, old(addEnabled), old(startEnabled)))
    {
      var name := Trim(nameText);
      if name == [] {
        return;
      }
      var kind := KindOfTypeName(typeName);
      if kind.Some? {
        var newPlayer := new Player(name, kind.value);
        players := players + [newPlayer];
      }
      if 2 <= |players| <= 7 {
        startEnabled := true;
      }
      if |players| >= 7 {
        addEnabled := false;
      }
    }

    /**
     * A player box's remove button, which exists only while its player is
     * listed: drop that player, then reset both buttons.
     */
    method RemovePlayer(player: Player)
      requires Valid() && player in players
      modifies this
      ensures Valid()
      ensures players == RemoveFirst(old(players), player)
      ensures |players| == |old(players)| - 1
      ensures State() == ButtonsAfterRemove(SetupState(|players|, old(addEnabled), old(startEnabled)))
    {
      RemoveFirstKeepsDistinct(players, player);
      players := RemoveFirst(players, player);
      startEnabled := 2 <= |players| <= 7;
      addEnabled := true;
    }

    /** The start button: the game loop runs on the roster as it stands. */
    method StartGame(turns: seq<int>) returns (winner: Option<nat>, turnsTaken: nat)
      requires Valid()
      modifies set p | p in players
      ensures GameLoop.Game(Scores(players), turnsTaken, winner) ==
              GameLoop.PlayGame(old(Scores(players)), turns)
    {
      winner, turnsTaken := GameLoop.RunGame(players, turns);
    }
  }

  lemma {:induction false} RemoveFirstKeepsDistinct(s: seq<Player>, x: Player)
    requires Distinct(s)
    ensures Distinct(RemoveFirst(s, x))
    ensures forall y :: y in RemoveFirst(s, x) ==> y in s
  {
    if s != [] && s[0] != x {
      var rest := RemoveFirst(s[1..], x);
      RemoveFirstKeepsDistinct(s[1..], x);
      assert RemoveFirst(s, x) == [s[0]] + rest;
      assert forall k :: 0 <= k < |s[1..]| ==> s[1..][k] != s[0];
      assert s[0] !in s[1..];
      assert s[0] !in rest;
      assert forall i, j :: 0 <= i < j < |[s[0]] + rest| ==> ([s[0]] + rest)[i] != ([s[0]] + rest)[j] by {
        forall i, j | 0 <= i < j < |[s[0]] + rest| ensures ([s[0]] + rest)[i] != ([s[0]] + rest)[j] {
          if i == 0 {
            assert ([s[0]] + rest)[j] == rest[j - 1];
          } else {
            assert ([s[0]] + rest)[i] == rest[i - 1];
            assert ([s[0]] + rest)[j] == rest[j - 1];
          }
        }
      }
    }
  }

  /** A click on one of the setup screen's buttons. */
  datatype Click = AddClick | RemoveClick

  /**
   * The setup screen driven by clicks under the rules as written: an add
   * (with a valid name and type) only while adding is enabled, a remove only
   * while a player is listed.
   */
  function ClicksAsWritten(s: SetupState, clicks: seq<Click>): (r: SetupState)
    ensures r.size <= s.size + |clicks|
    ensures s.size <= r.size + |clicks|
    decreases |clicks|
  {
    if clicks == [] then s
    else
      var next :=
        match clicks[0]
        case AddClick =>
          if s.addEnabled then ButtonsAfterAdd(s.(size := s.size + 1)) else s
        case RemoveClick =>
          if s.size > 0 then ButtonsAfterRemove(s.(size := s.size - 1)) else s;
      ClicksAsWritten(next, clicks[1..])
  }

  /**
   * As written, the roster can pass 7 only by one player: the 8th add disables
   * adding, so no click sequence from a screen within 8 players goes beyond 8.
   */
  lemma {:induction false} AsWrittenNeverPastEight(s: SetupState, clicks: seq<Click>)
    requires s.size <= 7 || (s.size == 8 && !s.addEnabled)
    ensures var r := ClicksAsWritten(s, clicks);
      r.size <= 7 || (r.size == 8 && !r.addEnabled)
    decreases |clicks|
  {
    if clicks != [] {
      var next :=
        match clicks[0]
        case AddClick =>
          if s.addEnabled then ButtonsAfterAdd(s.(size := s.size + 1)) else s
        case RemoveClick =>
          if s.size > 0 then ButtonsAfterRemove(s.(size := s.size - 1)) else s;
      assert ClicksAsWritten(s, clicks) == ClicksAsWritten(next, clicks[1..]);
      AsWrittenNeverPastEight(next, clicks[1..]);
    }
  }

  /** Eight clicks on the add button. */
  const EightAdds: seq<Click> := [AddClick, AddClick, AddClick, AddClick, AddClick, AddClick, AddClick, AddClick]

  /** The setup screen as it starts. */
  const InitialSetup: SetupState := SetupState(0, true, false)

  /** What the setup screen promises: at most 7 players, and start enabled only for 2..7. */
  predicate SetupWithinBounds(s: SetupState)
  {
    s.size <= 7 && (s.startEnabled <==> 2 <= s.size)
  }

  /**
   * As written, adding is disabled only once the roster exceeds 7, so an
   * eighth player is accepted and the start button stays enabled with 8.
   */
  lemma EighthPlayerAcceptedAsWritten()
    ensures ClicksAsWritten(InitialSetup, EightAdds) == SetupState(8, false, true)
    ensures !SetupWithinBounds(ClicksAsWritten(InitialSetup, EightAdds))
  {
    var c := EightAdds;
    assert ClicksAsWritten(SetupState(7, true, true), c[7..]) == SetupState(8, false, true);
    assert ClicksAsWritten(SetupState(6, true, true), c[6..]) == SetupState(8, false, true);
    assert ClicksAsWritten(SetupState(5, true, true), c[5..]) == SetupState(8, false, true);
    assert ClicksAsWritten(SetupState(4, true, true), c[4..]) == SetupState(8, false, true);
    assert ClicksAsWritten(SetupState(3, true, true), c[3..]) == SetupState(8, false, true);
    assert ClicksAsWritten(SetupState(2, true, true), c[2..]) == SetupState(8, false, true);
    assert ClicksAsWritten(SetupState(1, true, false), c[1..]) == SetupState(8, false, true);
  }

  /**
   * The intended rule after an add, on the new size: start is enabled for a
   * size in 2..7 and, independently, adding is disabled from 7 players on.
   */
  function ButtonsAfterAddCorrected(s: SetupState): SetupState
  {
    var t := if 2 <= s.size <= 7 then s.(startEnabled := true) else s;
    if s.size >= 7 then t.(addEnabled := false) else t
  }

  function ClicksCorrected(s: SetupState, clicks: seq<Click>): SetupState
    decreases |clicks|
  {
    if clicks == [] then s
    else
      var next :=
        match clicks[0]
        case AddClick =>
          if s.addEnabled then ButtonsAfterAddCorrected(s.(size := s.size + 1)) else s
        case RemoveClick =>
          if s.size > 0 then ButtonsAfterRemove(s.(size := s.size - 1)) else s;
      ClicksCorrected(next, clicks[1..])
  }

  /**
   * Under the corrected add rule, every sequence of clicks from the initial
   * screen keeps the roster at 7 or fewer, with start enabled exactly for 2..7.
   */
  lemma {:induction false} CorrectedSetupStaysWithinBounds(s: SetupState, clicks: seq<Click>)
    requires SetupWithinBounds(s) && (s.addEnabled <==> s.size < 7)
    ensures SetupWithinBounds(ClicksCorrected(s, clicks))
    decreases |clicks|
  {
    if clicks != [] {
      var next :=
        match clicks[0]
        case AddClick =>
          if s.addEnabled then ButtonsAfterAddCorrected(s.(size := s.size + 1)) else s
        case RemoveClick =>
          if s.size > 0 then ButtonsAfterRemove(s.(size := s.size - 1)) else s;
      CorrectedSetupStaysWithinBounds(next, clicks[1..]);
    }
  }
}
