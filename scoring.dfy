/**
  The arithmetic a quiz session derives from its questions and answers:
  the count of correct answers, the truncated percentage, the estimated
  score on the 10-950 scale, the 850 target, and the per-tag tallies.
*/
module Scoring {
  import opened Optional
  import opened Questions

  /** Answer slot `a` holds the correct option of `q`; an unanswered slot is
      never correct. */
  predicate IsCorrect(q: Question, a: Option<int>) {
    a.Some? && a.value == q.correctAnswer
  }

  /** The number of slots whose answer is the correct option. */
  function CorrectCount(qs: seq<Question>, answers: seq<Option<int>>): (n: nat)
    requires |answers| == |qs|
    ensures n <= |qs|
    decreases |qs|
  {
    if qs == [] then 0
    else
      var k := |qs| - 1;
      CorrectCount(qs[..k], answers[..k]) + (if IsCorrect(qs[k], answers[k]) then 1 else 0)
  }

  /** The positions of the correct slots. */
  function CorrectSlots(qs: seq<Question>, answers: seq<Option<int>>): set<nat>
    requires |answers| == |qs|
  {
    set i: nat | i < |qs| && IsCorrect(qs[i], answers[i])
  }

  /** The count is the number of correct positions. */
  lemma {:induction false} CorrectCountIsSlotCount(qs: seq<Question>, answers: seq<Option<int>>)
    requires |answers| == |qs|
    ensures CorrectCount(qs, answers) == |CorrectSlots(qs, answers)|
    decreases |qs|
  {
    if qs != [] {
      var k := |qs| - 1;
      CorrectCountIsSlotCount(qs[..k], answers[..k]);
      var before := CorrectSlots(qs[..k], answers[..k]);
      if IsCorrect(qs[k], answers[k]) {
        assert CorrectSlots(qs, answers) == before + {k};
      } else {
        assert CorrectSlots(qs, answers) == before;
      }
    }
  }

  /** A session whose every slot holds the correct option scores full marks,
      and one with no answers scores nothing. */
  lemma {:induction false} CorrectCountExtremes(qs: seq<Question>, answers: seq<Option<int>>)
    requires |answers| == |qs|
    ensures (forall i :: 0 <= i < |qs| ==> IsCorrect(qs[i], answers[i])) ==> CorrectCount(qs, answers) == |qs|
    ensures (forall i :: 0 <= i < |qs| ==> answers[i].None?) ==> CorrectCount(qs, answers) == 0
    decreases |qs|
  {
    if qs != [] {
      CorrectCountExtremes(qs[..|qs| - 1], answers[..|qs| - 1]);
    }
  }

  // ---------------------------------------------------------------------------
  // Percentage and estimated score
  // ---------------------------------------------------------------------------

  /** `score` out of `count` as a percentage, truncated toward zero; 0 for an
      empty session. */
  function Percentage(score: nat, count: nat): (pct: nat)
    ensures count == 0 ==> pct == 0
    ensures count > 0 ==> pct * count <= score * 100 < (pct + 1) * count
    ensures score <= count ==> pct <= 100
  {
    if count == 0 then 0
    else
      var pct := score * 100 / count;
      assert pct * count <= score * 100 < (pct + 1) * count;
      assert score <= count ==> pct * count <= 100 * count;
      pct
  }

  /** The percentage is 100 exactly when every question was answered
      correctly, and 0 exactly when fewer than one in a hundred was. */
  lemma PercentageExtremes(score: nat, count: nat)
    requires 0 < count && score <= count
    ensures Percentage(score, count) == 100 <==> score == count
    ensures Percentage(score, count) == 0 <==> score * 100 < count
  {
    var pct := Percentage(score, count);
    if pct == 100 {
      LeFromProducts(count, score, 100);
    }
    if score == count {
      LeFromProducts(100, pct + 1, count);
      LeFromProducts(pct, 100, count);
    }
    if score * 100 < count {
      LtFromProducts(pct, 1, count);
    }
  }

  /** Dividing both sides of an inequality by a positive factor. */
  lemma LeFromProducts(a: int, b: int, c: int)
    requires c > 0 && a * c <= b * c
    ensures a <= b
  {
  }

  lemma LtFromProducts(a: int, b: int, c: int)
    requires c > 0 && a * c < b * c
    ensures a < b
  {
  }

  /** A three-question session with two correct answers and one wrong one
      scores 2 and 66 percent: the percentage truncates rather than rounds. */
  lemma ThreeQuestionSession()
    ensures var qs := [NewQuestion(0, "a", ["p", "q", "r", "s"], 1, Grammar),
                       NewQuestion(1, "b", ["p", "q", "r", "s"], 0, Vocabulary),
                       NewQuestion(2, "c", ["p", "q", "r", "s"], 2, Reading)];
            var answers := [Some(1), Some(3), Some(2)];
            CorrectCount(qs, answers) == 2 && Percentage(CorrectCount(qs, answers), |qs|) == 66
  {
    var qs := [NewQuestion(0, "a", ["p", "q", "r", "s"], 1, Grammar),
               NewQuestion(1, "b", ["p", "q", "r", "s"], 0, Vocabulary),
               NewQuestion(2, "c", ["p", "q", "r", "s"], 2, Reading)];
    var answers := [Some(1), Some(3), Some(2)];
    assert CorrectCount(qs[..1], answers[..1]) == 1;
    assert CorrectCount(qs[..2], answers[..2]) == 1;
  }

  const BaseScore := 10
  const MaxAdditional := 940
  const TargetScore := 850

  /** The estimated score for a percentage: the base plus the percentage's
      share of the remaining range, truncated. */
  function EstimatedScore(pct: nat): (est: int)
    ensures est >= BaseScore
    ensures pct <= 100 ==> est <= BaseScore + MaxAdditional
    ensures (est - BaseScore) * 100 <= pct * MaxAdditional < (est - BaseScore + 1) * 100
  {
    BaseScore + pct * MaxAdditional / 100
  }

  /** The estimate never decreases as the percentage grows. */
  lemma EstimatedScoreMonotonic(p: nat, q: nat)
    requires p <= q
    ensures EstimatedScore(p) <= EstimatedScore(q)
  {
    assert p * MaxAdditional <= q * MaxAdditional;
  }

  /** The ends of the scale: 0% is 10 and 100% is 950. */
  lemma EstimatedScoreEnds()
    ensures EstimatedScore(0) == BaseScore
    ensures EstimatedScore(100) == BaseScore + MaxAdditional
    ensures EstimatedScore(90) == 856
  {
  }

  predicate TargetReached(pct: nat) {
    EstimatedScore(pct) >= TargetScore
  }

  /** The 850 target is reached exactly from 90% up. */
  lemma TargetReachedIffNinety(pct: nat)
    ensures TargetReached(pct) <==> pct >= 90
  {
    if pct >= 90 {
      EstimatedScoreMonotonic(90, pct);
      EstimatedScoreEnds();
    } else {
      EstimatedScoreMonotonic(pct, 89);
      assert EstimatedScore(89) == 846;
    }
  }

  // ---------------------------------------------------------------------------
  // Per-tag tallies
  // ---------------------------------------------------------------------------

  /** Correct answers and questions among the questions of one tag value. */
  datatype Tally = Tally(correct: nat, total: nat)

  /** The tally of the questions whose tag `key` equals `k`. */
  function TallyBy<K(==)>(qs: seq<Question>, answers: seq<Option<int>>, key: Question -> K, k: K): (t: Tally)
    requires |answers| == |qs|
    ensures t.correct <= t.total <= |qs|
    decreases |qs|
  {
    if qs == [] then Tally(0, 0)
    else
      var n := |qs| - 1;
      var rest := TallyBy(qs[..n], answers[..n], key, k);
      if key(qs[n]) != k then rest
      else Tally(rest.correct + (if IsCorrect(qs[n], answers[n]) then 1 else 0), rest.total + 1)
  }

  /** The total of a tally is the size of the questions filtered by the tag,
      and a tag value no question carries gets (0, 0). */
  lemma {:induction false} TallyTotalIsFilterSize<K>(qs: seq<Question>, answers: seq<Option<int>>, key: Question -> K, k: K)
    requires |answers| == |qs|
    ensures TallyBy(qs, answers, key, k).total == |Filter(qs, key, k)|
    ensures (forall q :: q in qs ==> key(q) != k) ==> TallyBy(qs, answers, key, k) == Tally(0, 0)
    decreases |qs|
  {
    if qs != [] {
      var n := |qs| - 1;
      assert forall q :: q in qs[..n] ==> q in qs;
      TallyTotalIsFilterSize(qs[..n], answers[..n], key, k);
    }
  }

  /** Over the four sections the totals add up to the number of questions
      and the correct counts to the session's score. */
  lemma {:induction false} SectionTalliesSum(qs: seq<Question>, answers: seq<Option<int>>)
    requires |answers| == |qs|
    ensures TallyBy(qs, answers, SectionOf, Grammar).total + TallyBy(qs, answers, SectionOf, Vocabulary).total
          + TallyBy(qs, answers, SectionOf, Reading).total + TallyBy(qs, answers, SectionOf, BusinessEnglish).total
          == |qs|
    ensures TallyBy(qs, answers, SectionOf, Grammar).correct + TallyBy(qs, answers, SectionOf, Vocabulary).correct
          + TallyBy(qs, answers, SectionOf, Reading).correct + TallyBy(qs, answers, SectionOf, BusinessEnglish).correct
          == CorrectCount(qs, answers)
    decreases |qs|
  {
    if qs != [] {
      var n := |qs| - 1;
      SectionTalliesSum(qs[..n], answers[..n]);
      var hit := if IsCorrect(qs[n], answers[n]) then 1 else 0;
      forall s: Section
        ensures TallyBy(qs, answers, SectionOf, s).correct
             == TallyBy(qs[..n], answers[..n], SectionOf, s).correct + (if qs[n].section == s then hit else 0)
      {
      }
    }
  }

  /** Over the three difficulties the totals add up to the number of
      questions and the correct counts to the session's score. */
  lemma {:induction false} DifficultyTalliesSum(qs: seq<Question>, answers: seq<Option<int>>)
    requires |answers| == |qs|
    ensures TallyBy(qs, answers, DifficultyOf, Intermediate).total
          + TallyBy(qs, answers, DifficultyOf, UpperIntermediate).total
          + TallyBy(qs, answers, DifficultyOf, Advanced).total == |qs|
    ensures TallyBy(qs, answers, DifficultyOf, Intermediate).correct
          + TallyBy(qs, answers, DifficultyOf, UpperIntermediate).correct
          + TallyBy(qs, answers, DifficultyOf, Advanced).correct == CorrectCount(qs, answers)
    decreases |qs|
  {
    if qs != [] {
      var n := |qs| - 1;
      DifficultyTalliesSum(qs[..n], answers[..n]);
      var hit := if IsCorrect(qs[n], answers[n]) then 1 else 0;
      forall d: Difficulty
        ensures TallyBy(qs, answers, DifficultyOf, d).correct
             == TallyBy(qs[..n], answers[..n], DifficultyOf, d).correct + (if qs[n].difficulty == d then hit else 0)
      {
      }
    }
  }

  /** `scoreBySection`: a tally for every section, absent ones included. */
  method ScoreBySection(questions: seq<Question>, selectedAnswers: seq<Option<int>>) returns (result: map<Section, Tally>)
    requires |selectedAnswers| == |questions|
    ensures forall s: Section :: s in result && result[s] == TallyBy(questions, selectedAnswers, SectionOf, s)
  {
    result := map[];
    var cases := AllSections();
    for i := 0 to |cases|
      invariant forall j :: 0 <= j < i ==> cases[j] in result
      invariant forall s :: s in result ==> result[s] == TallyBy(questions, selectedAnswers, SectionOf, s)
    {
      var section := cases[i];
      var tally := TallyBy(questions, selectedAnswers, SectionOf, section);
      result := result[section := tally];
    }
    forall s: Section ensures s in result {
      assert s in cases;
      var j :| 0 <= j < |cases| && cases[j] == s;
    }
  }

  /** `scoreByDifficulty`: a tally for every difficulty, absent ones included. */
  method ScoreByDifficulty(questions: seq<Question>, selectedAnswers: seq<Option<int>>) returns (result: map<Difficulty, Tally>)
    requires |selectedAnswers| == |questions|
    ensures forall d: Difficulty :: d in result && result[d] == TallyBy(questions, selectedAnswers, DifficultyOf, d)
  {
    result := map[];
    var cases := AllDifficulties();
    for i := 0 to |cases|
      invariant forall j :: 0 <= j < i ==> cases[j] in result
      invariant forall d :: d in result ==> result[d] == TallyBy(questions, selectedAnswers, DifficultyOf, d)
    {
      var difficulty := cases[i];
      var tally := TallyBy(questions, selectedAnswers, DifficultyOf, difficulty);
      result := result[difficulty := tally];
    }
    forall d: Difficulty ensures d in result {
      assert d in cases;
      var j :| 0 <= j < |cases| && cases[j] == d;
    }
  }
}
