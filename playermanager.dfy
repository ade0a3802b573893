/**
 * The ordered player list behind the windowed game: additions at the end,
 * removal by object or by position, positional access and a clear.
 * A Java `IndexOutOfBoundsException` is a `None` result here.
 */
module PlayerManager {
  import opened Common
  import opened Players

  /** A position the list can serve: within 0..size-1. */
  predicate InRange(players: seq<Player>, index: int)
  {
    0 <= index < |players|
  }

  /** The list with the element at `index` spliced out, later elements moving down one place. */
  function RemoveAt(players: seq<Player>, index: int): (r: seq<Player>)
    requires InRange(players, index)
    ensures |r| == |players| - 1
    ensures forall j :: 0 <= j < index ==> r[j] == players[j]
    ensures forall j :: index <= j < |r| ==> r[j] == players[j + 1]
  {
    players[..index] + players[index + 1..]
  }

  /** Splicing out a position and putting its element back there restores the list. */
  lemma RemoveAtThenInsert(players: seq<Player>, index: int)
    requires InRange(players, index)
    ensures var r := RemoveAt(players, index);
      r[..index] + [players[index]] + r[index..] == players
  {
    var r := RemoveAt(players, index);
    assert r[..index] == players[..index];
    assert r[index..] == players[index + 1..];
  }

  /** Removing the first occurrence of a listed player is splicing out its first position. */
  lemma RemoveFirstIsRemoveAt(players: seq<Player>, p: Player)
    requires p in players
    ensures RemoveFirst(players, p) == RemoveAt(players, IndexOf(players, p))
  {
    RemoveFirstSplices(players, p, IndexOf(players, p));
  }

  class PlayerManager {
    var players: seq<Player>

    /** An empty list. */
    constructor ()
      ensures players == []
    {
      players := [];
    }

    /** Appends a non-null player and answers true; a null player is refused with false. */
    method AddPlayer(player: Player?) returns (added: bool)
      modifies this
      ensures added <==> player != null
      ensures added ==> players == old(players) + [player]
      ensures !added ==> players == old(players)
    {
      if player != null {
        players := players + [player];
        added := true;
      } else {
        added := false;
      }
    }

    /** Drops the first occurrence of the player; answers whether it was listed. */
    method RemovePlayer(player: Player?) returns (removed: bool)
      modifies this
      ensures removed <==> player in old(players)
      ensures player != null ==> players == RemoveFirst<Player>(old(players), player)
      ensures player == null ==> players == old(players)
    {
      if player == null {
        removed := false;
        return;
      }
      removed := player in players;
      players := RemoveFirst<Player>(players, player);
    }

    /** Splices out the player at a position and returns it; a bad position changes nothing. */
    method RemovePlayerAt(index: int) returns (removed: Option<Player>)
      modifies this
      ensures removed.Some? <==> InRange(old(players), index)
      ensures removed.Some? ==>
        removed.value == old(players)[index] && players == RemoveAt(old(players), index)
      ensures removed.None? ==> players == old(players)
    {
      if InRange(players, index) {
        removed := Some(players[index]);
        players := RemoveAt(players, index);
      } else {
        removed := None;
      }
    }

    /** The name of the player at a position, if there is one. */
    method GetPlayerName(index: int) returns (name: Option<string>)
      ensures name.Some? <==> InRange(players, index)
      ensures name.Some? ==> name.value == players[index].name
    {
      if InRange(players, index) {
        name := Some(players[index].name);
      } else {
        name := None;
      }
    }

    /**
     * Sets the score of the player object at a position; every position
     * holding that same object shows the new score, and no other player and
     * not the list changes. A bad position changes nothing and answers false.
     */
    method SetPlayerScore(index: int, score: int) returns (ok: bool)
      modifies if InRange(players, index) then {players[index]} else {}
      ensures ok <==> InRange(players, index)
      ensures forall j :: 0 <= j < |players| ==>
        players[j].score == (if ok && players[j] == players[index] then score else old(players[j].score))
      ensures forall j :: 0 <= j < |players| ==> players[j].name == old(players[j].name)
      ensures Distinct(players) ==>
        Scores(players) == if ok then old(Scores(players))[index := score] else old(Scores(players))
    {
      if InRange(players, index) {
        players[index].SetScore(score);
        ok := true;
      } else {
        ok := false;
      }
    }

    /** The score of the player at a position, if there is one. */
    method GetPlayerScore(index: int) returns (score: Option<int>)
      ensures score.Some? <==> InRange(players, index)
      ensures score.Some? ==> score.value == players[index].score
    {
      if InRange(players, index) {
        score := Some(players[index].score);
      } else {
        score := None;
      }
    }

    /** The player object at a position, if there is one. */
    method GetPlayer(index: int) returns (player: Option<Player>)
      ensures player.Some? <==> InRange(players, index)
      ensures player.Some? ==> player.value == players[index]
    {
      if InRange(players, index) {
        player := Some(players[index]);
      } else {
        player := None;
      }
    }

    /** A copy of the list: the same players in the same order. */
    method GetAllPlayers() returns (all: seq<Player>)
      ensures all == players
    {
      all := players;
    }

    method GetPlayerCount() returns (count: nat)
      ensures count == |players|
    {
      count := |players|;
    }

    /** Whether the player is listed: some position holds it. */
    method ContainsPlayer(player: Player?) returns (found: bool)
      ensures found <==> exists j :: 0 <= j < |players| && players[j] == player
    {
      found := player in players;
    }

    method ClearPlayers()
      modifies this
      ensures players == []
    {
      players := [];
    }
  }
}
