/** Values shared by the turn rules, the game loop and the rosters. */
module Common {

  /** The conventional optional value; `None` also stands for a Java exception or a null result. */
  datatype Option<T> = None | Some(value: T)

  /** A face of the six-sided die every player kind rolls. */
  type Face = r: int | 1 <= r <= 6 witness 1

  /** One result of the coin that the Random player flips after each safe roll. */
  type Coin = c: int | 0 <= c <= 1 witness 0

  /** The face that busts a turn. */
  const BustFace: int := 6

  /**
   * The end of one turn. `Over` carries the turn score the player's `play()`
   * returns, how many rolls it consumed and how many coin flips or answer lines
   * it consumed. `RanOut` means the supplied input ended before the turn did.
   */
  datatype TurnResult = Over(score: int, rollsUsed: nat, answersUsed: nat) | RanOut

  /** The sum of a sequence, taken from the front. */
  function Sum(s: seq<int>): int
  {
    if s == [] then 0 else s[0] + Sum(s[1..])
  }

  lemma {:induction false} SumSnoc(s: seq<int>, x: int)
    ensures Sum(s + [x]) == Sum(s) + x
  {
    if s == [] {
      assert s + [x] == [x];
    } else {
      assert (s + [x])[1..] == s[1..] + [x];
      SumSnoc(s[1..], x);
    }
  }

  /** Extending a prefix of `s` by one element adds that element to the sum. */
  lemma SumPrefixStep(s: seq<int>, k: nat)
    requires k < |s|
    ensures Sum(s[..k + 1]) == Sum(s[..k]) + s[k]
  {
    assert s[..k + 1] == s[..k] + [s[k]];
    SumSnoc(s[..k], s[k]);
  }

  /** A prefix of safe rolls (no bust face) sums to at least its length and at most five times it. */
  lemma {:induction false} SafeRollsSum(s: seq<Face>)
    requires forall j :: 0 <= j < |s| ==> s[j] != BustFace
    ensures |s| <= Sum(s) <= 5 * |s|
  {
    if s != [] {
      SafeRollsSum(s[1..]);
    }
  }

  /** No object occurs twice. */
  predicate Distinct<T(==)>(s: seq<T>)
  {
    forall i, j :: 0 <= i < j < |s| ==> s[i] != s[j]
  }

  /** The index of the first occurrence of `x`, or `|s|` when there is none. */
  function IndexOf<T(==)>(s: seq<T>, x: T): (i: nat)
    ensures i <= |s|
    ensures i < |s| ==> s[i] == x
    ensures i == |s| <==> x !in s
    ensures forall j :: 0 <= j < i ==> s[j] != x
  {
    if s == [] then 0
    else if s[0] == x then 0
    else 1 + IndexOf(s[1..], x)
  }

  /**
   * Removes the first occurrence of `x`, as `java.util.List.remove(Object)` does;
   * the sequence is returned unchanged when `x` does not occur.
   */
  function RemoveFirst<T(==)>(s: seq<T>, x: T): (r: seq<T>)
    ensures x !in s ==> r == s
    ensures x in s ==> |r| == |s| - 1
  {
    if s == [] then []
    else
      assert s == [s[0]] + s[1..];
      if s[0] == x then s[1..]
      else [s[0]] + RemoveFirst(s[1..], x)
  }

  /** Removing the first occurrence, at index `k`, splices it out and keeps the order of the rest. */
  lemma {:induction false} RemoveFirstSplices<T>(s: seq<T>, x: T, k: nat)
    requires k < |s| && s[k] == x
    requires forall j :: 0 <= j < k ==> s[j] != x
    ensures RemoveFirst(s, x) == s[..k] + s[k + 1..]
  {
    if k == 0 {
      assert s[..0] + s[1..] == s[1..];
    } else {
      var t := s[1..];
      RemoveFirstSplices(t, x, k - 1);
      assert t[..k - 1] == s[1..k];
      assert t[k..] == s[k + 1..];
      assert s[..k] == [s[0]] + s[1..k];
    }
  }
}
