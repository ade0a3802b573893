/** The Human player: after each safe roll, answer lines decide; "n" stops, "y" rolls again. */
module Human {
  import opened Common

  /** The line equals "n" once lower-cased: it is the one character 'n' or 'N'. */
  predicate IsNo(line: string) { |line| == 1 && (line[0] == 'n' || line[0] == 'N') }

  /** The line equals "y" once lower-cased: it is the one character 'y' or 'Y'. */
  predicate IsYes(line: string) { |line| == 1 && (line[0] == 'y' || line[0] == 'Y') }

  /** A line that is neither answer; the prompt is repeated. */
  predicate IsInvalid(line: string) { !IsNo(line) && !IsYes(line) }

  /** The index of the first valid answer at or after line `m`, skipping invalid lines. */
  function NextAnswer(lines: seq<string>, m: nat): (a: Option<nat>)
    requires m <= |lines|
    ensures a.Some? ==> m <= a.value < |lines| && !IsInvalid(lines[a.value])
    ensures a.Some? ==> forall j :: m <= j < a.value ==> IsInvalid(lines[j])
    ensures a.None? ==> forall j :: m <= j < |lines| ==> IsInvalid(lines[j])
    decreases |lines| - m
  {
    if m == |lines| then None
    else if IsNo(lines[m]) || IsYes(lines[m]) then Some(m)
    else NextAnswer(lines, m + 1)
  }

  /** The valid answers among the lines, in the order they were typed; invalid lines leave no trace. */
  function Answers(lines: seq<string>): (r: seq<string>)
    ensures |r| <= |lines|
    ensures forall j :: 0 <= j < |r| ==> !IsInvalid(r[j])
  {
    if lines == [] then []
    else
      var last := lines[|lines| - 1];
      Answers(lines[..|lines| - 1]) + (if IsInvalid(last) then [] else [last])
  }

  predicate AllYes(answers: seq<string>)
  {
    forall j :: 0 <= j < |answers| ==> IsYes(answers[j])
  }

  lemma AnswersStep(lines: seq<string>, t: nat)
    requires t < |lines|
    ensures Answers(lines[..t + 1]) ==
      Answers(lines[..t]) + (if IsInvalid(lines[t]) then [] else [lines[t]])
  {
    assert lines[..t + 1][..t] == lines[..t];
  }

  /** Reading further lines only extends the answers read so far. */
  lemma {:induction false} AnswersGrow(lines: seq<string>, p: nat, q: nat)
    requires p <= q <= |lines|
    ensures Answers(lines[..p]) <= Answers(lines[..q])
    decreases q - p
  {
    if p < q {
      AnswersGrow(lines, p, q - 1);
      AnswersStep(lines, q - 1);
    }
  }

  lemma {:induction false} AnswersSkipInvalid(lines: seq<string>, m: nat, n: nat)
    requires m <= n <= |lines|
    requires forall j :: m <= j < n ==> IsInvalid(lines[j])
    ensures Answers(lines[..n]) == Answers(lines[..m])
    decreases n - m
  {
    if m < n {
      AnswersSkipInvalid(lines, m, n - 1);
      AnswersStep(lines, n - 1);
    }
  }

  /**
   * The inner loop's next answer is the next entry of `Answers`: it extends
   * the answers read so far by one, and when there is none, no answer
   * remains in the lines.
   */
  lemma NextAnswerIsNextOfAnswers(lines: seq<string>, m: nat)
    requires m <= |lines|
    ensures NextAnswer(lines, m).None? ==> Answers(lines) == Answers(lines[..m])
    ensures NextAnswer(lines, m).Some? ==>
      var j := NextAnswer(lines, m).value;
      Answers(lines[..j + 1]) == Answers(lines[..m]) + [lines[j]]
  {
    var a := NextAnswer(lines, m);
    if a.None? {
      AnswersSkipInvalid(lines, m, |lines|);
      assert lines[..|lines|] == lines;
    } else {
      AnswersSkipInvalid(lines, m, a.value);
      AnswersStep(lines, a.value);
    }
  }

  /**
   * The rest of a Human turn from roll `k` and line `m` on, with `acc` points
   * already in the turn. A bust ignores the lines; after a safe roll the next
   * valid answer decides.
   */
  function HumanFrom(rolls: seq<Face>, lines: seq<string>, k: nat, m: nat, acc: int): TurnResult
    requires k <= |rolls| && m <= |lines|
    decreases |rolls| - k
  {
    if k == |rolls| then RanOut
    else if rolls[k] == BustFace then Over(0, k + 1, m)
    else match NextAnswer(lines, m)
      case None => RanOut
      case Some(j) =>
        if IsNo(lines[j]) then Over(acc + rolls[k], k + 1, j + 1)
        else HumanFrom(rolls, lines, k + 1, j + 1, acc + rolls[k])
  }

  function HumanTurn(rolls: seq<Face>, lines: seq<string>): TurnResult
  {
    HumanFrom(rolls, lines, 0, 0, 0)
  }

  lemma {:induction false} HumanFromFacts(rolls: seq<Face>, lines: seq<string>, k: nat, m: nat, acc: int)
    requires k <= |rolls| && m <= |lines|
    requires forall j :: 0 <= j < k ==> rolls[j] != BustFace
    requires acc == Sum(rolls[..k])
    requires k == 0 ==> m == 0
    requires k > 0 ==> m > 0 && IsYes(lines[m - 1])
    ensures var r := HumanFrom(rolls, lines, k, m, acc);
      r.Over? ==>
        && 1 <= r.rollsUsed <= |rolls| && r.answersUsed <= |lines|
        && (forall j :: 0 <= j < r.rollsUsed - 1 ==> rolls[j] != BustFace)
        && (rolls[r.rollsUsed - 1] == BustFace ==>
              r.score == 0 && (r.rollsUsed > 1 ==> r.answersUsed > 0 && IsYes(lines[r.answersUsed - 1])))
        && (rolls[r.rollsUsed - 1] != BustFace ==>
              r.answersUsed > 0 && IsNo(lines[r.answersUsed - 1]) &&
              r.score == Sum(rolls[..r.rollsUsed]))
    decreases |rolls| - k
  {
    if k < |rolls| && rolls[k] != BustFace {
      SumPrefixStep(rolls, k);
      var a := NextAnswer(lines, m);
      if a.Some? && !IsNo(lines[a.value]) {
        HumanFromFacts(rolls, lines, k + 1, a.value + 1, acc + rolls[k]);
      }
    }
  }

  /**
   * The answers a finished turn read: one per roll before the last, all "y",
   * plus the closing "n" when the last roll did not bust.
   */
  predicate AnswersMatchRolls(rolls: seq<Face>, lines: seq<string>, r: TurnResult)
  {
    r.Over? ==>
      && 1 <= r.rollsUsed <= |rolls| && r.answersUsed <= |lines|
      && (rolls[r.rollsUsed - 1] == BustFace ==>
            && |Answers(lines[..r.answersUsed])| == r.rollsUsed - 1
            && AllYes(Answers(lines[..r.answersUsed])))
      && (rolls[r.rollsUsed - 1] != BustFace ==>
            && |Answers(lines[..r.answersUsed])| == r.rollsUsed
            && AllYes(Answers(lines[..r.answersUsed])[..r.rollsUsed - 1])
            && IsNo(Answers(lines[..r.answersUsed])[r.rollsUsed - 1]))
  }

  /** From roll `k` and line `m`, with `k` "y" answers read so far, the turn's answers match its rolls. */
  lemma {:induction false} HumanFromAnswers(rolls: seq<Face>, lines: seq<string>, k: nat, m: nat, acc: int)
    requires k <= |rolls| && m <= |lines|
    requires |Answers(lines[..m])| == k && AllYes(Answers(lines[..m]))
    ensures var r := HumanFrom(rolls, lines, k, m, acc);
      && (r.Over? ==> k < r.rollsUsed && m <= r.answersUsed)
      && AnswersMatchRolls(rolls, lines, r)
    decreases |rolls| - k
  {
    if k < |rolls| && rolls[k] == BustFace {
      assert HumanFrom(rolls, lines, k, m, acc) == Over(0, k + 1, m);
    } else if k < |rolls| && NextAnswer(lines, m).Some? {
      var j := NextAnswer(lines, m).value;
      if IsYes(lines[j]) {
        AnswersAfterNext(lines, m, k);
        HumanFromYes(rolls, lines, k, m, acc);
        HumanFromAnswers(rolls, lines, k + 1, j + 1, acc + rolls[k]);
      } else {
        AnswersMatchAtNo(rolls, lines, k, m, acc);
      }
    }
  }

  /** A turn closed by an "n" answer to roll `k` has read `k` "y"s and then that "n". */
  lemma AnswersMatchAtNo(rolls: seq<Face>, lines: seq<string>, k: nat, m: nat, acc: int)
    requires k < |rolls| && m <= |lines| && rolls[k] != BustFace
    requires NextAnswer(lines, m).Some? && !IsYes(lines[NextAnswer(lines, m).value])
    requires |Answers(lines[..m])| == k && AllYes(Answers(lines[..m]))
    ensures var r := HumanFrom(rolls, lines, k, m, acc);
      && r.Over? && r.rollsUsed == k + 1 && r.answersUsed == NextAnswer(lines, m).value + 1
      && AnswersMatchRolls(rolls, lines, r)
  {
    AnswersAfterNext(lines, m, k);
    HumanFromNo(rolls, lines, k, m, acc);
  }

  /** The answers read after answer number `k` are the earlier ones plus the line just taken. */
  lemma AnswersAfterNext(lines: seq<string>, m: nat, k: nat)
    requires m <= |lines| && NextAnswer(lines, m).Some?
    requires |Answers(lines[..m])| == k && AllYes(Answers(lines[..m]))
    ensures var j := NextAnswer(lines, m).value;
      && |Answers(lines[..j + 1])| == k + 1
      && Answers(lines[..j + 1])[k] == lines[j]
      && AllYes(Answers(lines[..j + 1])[..k])
      && (IsYes(lines[j]) ==> AllYes(Answers(lines[..j + 1])))
  {
    NextAnswerIsNextOfAnswers(lines, m);
    var j := NextAnswer(lines, m).value;
    assert Answers(lines[..j + 1])[..k] == Answers(lines[..m]);
  }

  /** A safe roll answered "n" ends the turn after that roll and that answer line. */
  lemma HumanFromNo(rolls: seq<Face>, lines: seq<string>, k: nat, m: nat, acc: int)
    requires k < |rolls| && m <= |lines| && rolls[k] != BustFace
    requires NextAnswer(lines, m).Some? && !IsYes(lines[NextAnswer(lines, m).value])
    ensures var j := NextAnswer(lines, m).value;
      IsNo(lines[j]) && HumanFrom(rolls, lines, k, m, acc) == Over(acc + rolls[k], k + 1, j + 1)
  {
    HumanFromStep(rolls, lines, k, m, acc);
  }

  /** When `k` answers have been read and more remain, the next line taken is answer number `k`. */
  lemma NextAnswerIsAnswerAt(lines: seq<string>, m: nat, k: nat)
    requires m <= |lines| && |Answers(lines[..m])| == k < |Answers(lines)|
    ensures NextAnswer(lines, m).Some?
    ensures var j := NextAnswer(lines, m).value;
      |Answers(lines[..j + 1])| == k + 1 && Answers(lines)[k] == lines[j]
  {
    NextAnswerIsNextOfAnswers(lines, m);
    assert lines[..|lines|] == lines;
    AnswersGrow(lines, m, |lines|);
    assert NextAnswer(lines, m).Some?;
    var j := NextAnswer(lines, m).value;
    AnswersGrow(lines, j + 1, |lines|);
  }

  /** One safe roll answered by line `j`: "n" ends the turn with the sum, "y" goes on to the next roll. */
  lemma HumanFromStep(rolls: seq<Face>, lines: seq<string>, k: nat, m: nat, acc: int)
    requires k < |rolls| && m <= |lines| && rolls[k] != BustFace
    requires NextAnswer(lines, m).Some?
    ensures var j := NextAnswer(lines, m).value;
      HumanFrom(rolls, lines, k, m, acc) ==
        if IsNo(lines[j]) then Over(acc + rolls[k], k + 1, j + 1)
        else HumanFrom(rolls, lines, k + 1, j + 1, acc + rolls[k])
  {
  }

  /** A safe roll answered "y" leads on to the next roll, after the answer line. */
  lemma HumanFromYes(rolls: seq<Face>, lines: seq<string>, k: nat, m: nat, acc: int)
    requires k < |rolls| && m <= |lines| && rolls[k] != BustFace
    requires NextAnswer(lines, m).Some? && IsYes(lines[NextAnswer(lines, m).value])
    ensures var j := NextAnswer(lines, m).value;
      HumanFrom(rolls, lines, k, m, acc) == HumanFrom(rolls, lines, k + 1, j + 1, acc + rolls[k])
  {
    HumanFromStep(rolls, lines, k, m, acc);
  }

  /**
   * Conversely, when the first `n` rolls are safe and answered "y" (invalid
   * lines aside), the turn ends on roll `n`: with 0 if it is a 6, and
   * otherwise, when the next answer is "n", with the sum of the rolls.
   */
  lemma {:induction false} HumanFromEndsAt(rolls: seq<Face>, lines: seq<string>, k: nat, m: nat, acc: int, n: nat)
    requires k <= n < |rolls| && m <= |lines|
    requires forall j :: k <= j < n ==> rolls[j] != BustFace
    requires acc == Sum(rolls[..k])
    requires |Answers(lines[..m])| == k && n <= |Answers(lines)|
    requires AllYes(Answers(lines)[k..n])
    requires rolls[n] != BustFace ==> n < |Answers(lines)| && IsNo(Answers(lines)[n])
    ensures var r := HumanFrom(rolls, lines, k, m, acc);
      && r.Over? && r.rollsUsed == n + 1
      && r.score == (if rolls[n] == BustFace then 0 else Sum(rolls[..n + 1]))
    decreases n - k
  {
    if k == n {
      HumanFromEndsHere(rolls, lines, k, m, acc);
    } else if rolls[k] != BustFace {
      SumPrefixStep(rolls, k);
      NextAnswerIsAnswerAt(lines, m, k);
      var j := NextAnswer(lines, m).value;
      assert Answers(lines)[k..n][0] == lines[j];
      HumanFromYes(rolls, lines, k, m, acc);
      assert Answers(lines)[k..n][1..] == Answers(lines)[k + 1..n];
      HumanFromEndsAt(rolls, lines, k + 1, j + 1, acc + rolls[k], n);
    }
  }

  /** The last roll of the turn: a 6 scores 0, and otherwise an "n" answer banks the sum. */
  lemma HumanFromEndsHere(rolls: seq<Face>, lines: seq<string>, k: nat, m: nat, acc: int)
    requires k < |rolls| && m <= |lines|
    requires acc == Sum(rolls[..k])
    requires |Answers(lines[..m])| == k
    requires rolls[k] != BustFace ==> k < |Answers(lines)| && IsNo(Answers(lines)[k])
    ensures var r := HumanFrom(rolls, lines, k, m, acc);
      && r.Over? && r.rollsUsed == k + 1
      && r.score == (if rolls[k] == BustFace then 0 else Sum(rolls[..k + 1]))
  {
    if rolls[k] != BustFace {
      SumPrefixStep(rolls, k);
      NextAnswerIsAnswerAt(lines, m, k);
      HumanFromStep(rolls, lines, k, m, acc);
    }
  }

  /**
   * What a finished Human turn amounts to: no bust before the last roll;
   * every roll before the last was answered "y", invalid lines counting for
   * nothing; and either the last roll busts (score 0) or its answer, the last
   * line read, was "n" and the score is the sum of the turn's rolls.
   */
  lemma HumanTurnFacts(rolls: seq<Face>, lines: seq<string>)
    ensures var r := HumanTurn(rolls, lines);
      r.Over? ==>
        && 1 <= r.rollsUsed <= |rolls| && r.answersUsed <= |lines|
        && (forall j :: 0 <= j < r.rollsUsed - 1 ==> rolls[j] != BustFace)
        && (rolls[r.rollsUsed - 1] == BustFace ==>
              && r.score == 0
              && |Answers(lines[..r.answersUsed])| == r.rollsUsed - 1
              && AllYes(Answers(lines[..r.answersUsed]))
              && (r.rollsUsed == 1 ==> r.answersUsed == 0)
              && (r.rollsUsed > 1 ==> r.answersUsed > 0 && IsYes(lines[r.answersUsed - 1])))
        && (rolls[r.rollsUsed - 1] != BustFace ==>
              && r.answersUsed > 0 && IsNo(lines[r.answersUsed - 1])
              && |Answers(lines[..r.answersUsed])| == r.rollsUsed
              && AllYes(Answers(lines[..r.answersUsed])[..r.rollsUsed - 1])
              && IsNo(Answers(lines[..r.answersUsed])[r.rollsUsed - 1])
              && r.score == Sum(rolls[..r.rollsUsed])
              && r.rollsUsed <= r.score <= 5 * r.rollsUsed)
  {
    assert lines[..0] == [];
    HumanFromFacts(rolls, lines, 0, 0, 0);
    HumanFromAnswers(rolls, lines, 0, 0, 0);
    if |rolls| > 0 && rolls[0] == BustFace {
      assert HumanTurn(rolls, lines) == Over(0, 1, 0);
    }
    var r := HumanTurn(rolls, lines);
    if r.Over? && rolls[r.rollsUsed - 1] != BustFace {
      SafeRollsSum(rolls[..r.rollsUsed]);
    }
  }

  /**
   * The converse: if rolls before `n` are safe and the answers typed begin
   * with `n` "y"s, the turn ends on roll `n`, scoring 0 when it is a 6, and
   * otherwise, when the next answer is "n", scoring the sum of rolls 0..n.
   */
  lemma HumanTurnEndsAt(rolls: seq<Face>, lines: seq<string>, n: nat)
    requires n < |rolls|
    requires forall j :: 0 <= j < n ==> rolls[j] != BustFace
    requires n <= |Answers(lines)| && AllYes(Answers(lines)[..n])
    requires rolls[n] != BustFace ==> n < |Answers(lines)| && IsNo(Answers(lines)[n])
    ensures var r := HumanTurn(rolls, lines);
      && r.Over? && r.rollsUsed == n + 1
      && r.score == (if rolls[n] == BustFace then 0 else Sum(rolls[..n + 1]))
  {
    assert lines[..0] == [];
    assert Answers(lines)[0..n] == Answers(lines)[..n];
    HumanFromEndsAt(rolls, lines, 0, 0, 0, n);
  }

  /** Rolls 1, 2, 3 with an invalid line among the answers: the stray line costs no roll. */
  lemma HumanTurnExample()
    ensures HumanTurn([1, 2, 3], ["y", "x", "y", "n"]) == Over(6, 3, 4)
    ensures HumanTurn([1, 2], ["x", "n"]) == Over(1, 1, 2)
  {
  }

  /** Invalid lines before an answer are skipped: prefixing them changes nothing but the line count. */
  lemma {:induction false} InvalidLinesSkipped(lines: seq<string>, m: nat, n: nat)
    requires m <= n <= |lines|
    requires forall j :: m <= j < n ==> IsInvalid(lines[j])
    ensures NextAnswer(lines, m) == NextAnswer(lines, n)
    decreases n - m
  {
    if m < n {
      InvalidLinesSkipped(lines, m + 1, n);
    }
  }

  /** The source's `play()`: an outer loop of rolls and an inner loop reading answer lines. */
  method Play(rolls: seq<Face>, lines: seq<string>) returns (r: TurnResult)
    ensures r == HumanTurn(rolls, lines)
  {
    var turn: int := 0;
    var k := 0;
    var m := 0;
    while true
      invariant 0 <= k <= |rolls| && 0 <= m <= |lines|
      invariant HumanFrom(rolls, lines, k, m, turn) == HumanTurn(rolls, lines)
      decreases |rolls| - k
    {
      if k == |rolls| {
        return RanOut;
      }
      var roll := rolls[k];
      k := k + 1;
      if roll == BustFace {
        return Over(0, k, m);
      }
      turn := turn + roll;
      ghost var m0 := m;
      while true
        invariant m0 <= m <= |lines|
        invariant NextAnswer(lines, m) == NextAnswer(lines, m0)
        decreases |lines| - m
      {
        if m == |lines| {
          return RanOut;
        }
        var input := lines[m];
        m := m + 1;
        if IsNo(input) {
          return Over(turn, k, m);
        } else if IsYes(input) {
          break;
        }
      }
    }
  }
}
