/**
  The quiz session of TOEICPrep: it draws up to twenty questions, records
  one optional answer per question, moves a cursor back and forth, and on
  finishing scores the answers and reports the percentage to the
  statistics store.
*/
module Quiz {
  import opened Optional
  import opened Questions
  import opened Scoring
  import opened Statistics

  /** How many questions one quiz draws at most. */
  const QuestionsPerQuiz := 20

  function Min(a: int, b: int): int {
    if a < b then a else b
  }

  function Max(a: int, b: int): int {
    if a < b then b else a
  }

  /** The questions a quiz starts with: the first twenty of the shuffled
      entries the section filter admits, or all of them when there are fewer. */
  function Draw(bank: seq<Question>, section: Option<Section>, perm: seq<nat>): (drawn: seq<Question>)
    requires IsIndexPerm(perm, |Available(bank, section)|)
    ensures |drawn| <= QuestionsPerQuiz
    ensures drawn <= QuestionsForSection(bank, section, perm)
  {
    var shuffled := QuestionsForSection(bank, section, perm);
    shuffled[..Min(QuestionsPerQuiz, |shuffled|)]
  }

  /** `k / n` for `n >= 1` lies in (0, 1] when `1 <= k <= n`, and is 1
      exactly when `k == n`. */
  lemma FractionBounds(k: int, n: int)
    requires n >= 1
    ensures 1 <= k <= n ==> 0.0 < k as real / n as real <= 1.0
    ensures 1 <= k <= n ==> (k as real / n as real == 1.0 <==> k == n)
  {
    var p := k as real / n as real;
    assert p * n as real == k as real;
  }

  /** A draw has min(20, available) questions, all from the bank and in the
      chosen section, none drawn more often than the bank holds it; a filter
      that admits at most twenty entries draws all of them. */
  lemma DrawProperties(bank: seq<Question>, section: Option<Section>, perm: seq<nat>)
    requires IsIndexPerm(perm, |Available(bank, section)|)
    ensures |Draw(bank, section, perm)| == Min(QuestionsPerQuiz, |Available(bank, section)|)
    ensures forall q :: q in Draw(bank, section, perm) ==> q in bank && InSection(q, section)
    ensures forall q :: multiset(Draw(bank, section, perm))[q] <= multiset(bank)[q]
    ensures |Available(bank, section)| <= QuestionsPerQuiz ==>
      forall q :: multiset(Draw(bank, section, perm))[q] == if InSection(q, section) then multiset(bank)[q] else 0
    ensures BankWellFormed(bank) ==> BankWellFormed(Draw(bank, section, perm))
  {
    var shuffled := QuestionsForSection(bank, section, perm);
    var k := Min(QuestionsPerQuiz, |shuffled|);
    assert shuffled == shuffled[..k] + shuffled[k..];
    assert multiset(shuffled) == multiset(shuffled[..k]) + multiset(shuffled[k..]);
    if |shuffled| <= QuestionsPerQuiz {
      assert shuffled[..k] == shuffled;
    }
  }

  class QuizSession {
    /** The catalogue the session draws from and the store it reports to. */
    const bank: seq<Question>
    const stats: Stats

    var questions: seq<Question>
    var currentQuestionIndex: nat
    var selectedAnswers: seq<Option<int>>
    var score: nat
    var isQuizCompleted: bool
    var showResults: bool
    var selectedSection: Option<Section>

    /** One answer slot per question, the cursor on a question (or at 0 when
        there is none), the score at most the number of questions. */
    ghost predicate Valid()
      reads this, stats
    {
      && |selectedAnswers| == |questions| <= QuestionsPerQuiz
      && (currentQuestionIndex < |questions| || currentQuestionIndex == 0)
      && score <= |questions|
      && stats.Valid()
    }

    /** The state a load leaves: a fresh draw, every slot unanswered, the
        cursor on the first question, score 0, not completed. */
    ghost predicate Loaded(perm: seq<nat>)
      reads this
      requires IsIndexPerm(perm, |Available(bank, selectedSection)|)
    {
      && questions == Draw(bank, selectedSection, perm)
      && selectedAnswers == seq(|questions|, _ => None)
      && currentQuestionIndex == 0
      && score == 0
      && !isQuizCompleted && !showResults
    }

    /** What finishing does: the answers are scored, the session is marked
        completed, and one completion is recorded in the store. */
    twostate predicate Finished()
      reads this, stats
    {
      && questions == old(questions) && selectedAnswers == old(selectedAnswers)
      && currentQuestionIndex == old(currentQuestionIndex)
      && selectedSection == old(selectedSection)
      && |selectedAnswers| == |questions|
      && score == CorrectCount(questions, selectedAnswers)
      && isQuizCompleted && showResults
      && stats.log == old(stats.log) + [Completion(Percentage(score, |questions|), selectedSection)]
      && stats.totalQuizzesTaken == old(stats.totalQuizzesTaken) + 1
      && stats.bestScore == Max(old(stats.bestScore), Percentage(score, |questions|))
      && forall s: Section :: stats.History(s) ==
           if selectedSection == Some(s) then old(stats.History(s)) + [Percentage(score, |questions|)]
           else old(stats.History(s))
    }

    /** A session on `bank` reporting to `stats`, over all sections unless one
        is chosen; `perm` is the order the shuffle produces. */
    constructor (bank: seq<Question>, stats: Stats, perm: seq<nat>, selectedSection: Option<Section> := None)
      requires stats.Valid()
      requires IsIndexPerm(perm, |Available(bank, selectedSection)|)
      ensures this.bank == bank && this.stats == stats && this.selectedSection == selectedSection
      ensures Valid() && Loaded(perm)
    {
      this.bank := bank;
      this.stats := stats;
      this.selectedSection := selectedSection;
      new;
      LoadQuestions(perm);
    }

    /** Draws a new set of questions for the same section and resets the
        answers, cursor, score and completion flags. */
    method LoadQuestions(perm: seq<nat>)
      requires stats.Valid()
      requires IsIndexPerm(perm, |Available(bank, selectedSection)|)
      modifies this
      ensures selectedSection == old(selectedSection)
      ensures Valid() && Loaded(perm)
      ensures |questions| == Min(QuestionsPerQuiz, |Available(bank, selectedSection)|)
    {
      DrawProperties(bank, selectedSection, perm);
      var availableQuestions := QuestionsForSection(bank, selectedSection, perm);
      questions := availableQuestions[..Min(QuestionsPerQuiz, |availableQuestions|)];
      selectedAnswers := seq(|questions|, _ => None);
      currentQuestionIndex := 0;
      score := 0;
      isQuizCompleted := false;
      showResults := false;
    }

    /** Starts over: the same as loading. */
    method RestartQuiz(perm: seq<nat>)
      requires stats.Valid()
      requires IsIndexPerm(perm, |Available(bank, selectedSection)|)
      modifies this
      ensures selectedSection == old(selectedSection)
      ensures Valid() && Loaded(perm)
      ensures |questions| == Min(QuestionsPerQuiz, |Available(bank, selectedSection)|)
    {
      LoadQuestions(perm);
    }

    /** The question under the cursor; there is one whenever the session has
        questions. */
    function CurrentQuestion(): (q: Option<Question>)
      reads this
      ensures q.Some? <==> currentQuestionIndex < |questions|
      ensures q.Some? ==> q.value == questions[currentQuestionIndex]
      ensures (currentQuestionIndex < |questions| || currentQuestionIndex == 0) ==> (q.Some? <==> questions != [])
    {
      if currentQuestionIndex < |questions| then Some(questions[currentQuestionIndex]) else None
    }

    /** The share of the quiz reached, counting the current question: 0 for
        an empty session, otherwise in (0, 1] and 1 exactly at the last
        question. */
    function Progress(): (p: real)
      reads this
      ensures questions == [] ==> p == 0.0
      ensures currentQuestionIndex < |questions| ==> 0.0 < p <= 1.0
      ensures currentQuestionIndex < |questions| ==> (p == 1.0 <==> currentQuestionIndex == |questions| - 1)
    {
      if questions == [] then 0.0
      else
        FractionBounds(currentQuestionIndex + 1, |questions|);
        (currentQuestionIndex + 1) as real / |questions| as real
    }

    /** Records `answerIndex` as the answer to the current question,
        replacing any earlier answer; nothing else changes. The index is not
        checked against the options. */
    method SelectAnswer(answerIndex: int)
      requires Valid() && currentQuestionIndex < |selectedAnswers|
      modifies this`selectedAnswers
      ensures Valid()
      ensures selectedAnswers == old(selectedAnswers)[currentQuestionIndex := Some(answerIndex)]
      ensures SelectedAnswer() == Some(answerIndex)
    {
      selectedAnswers := selectedAnswers[currentQuestionIndex := Some(answerIndex)];
    }

    /** Moves to the next question, or finishes the quiz when the cursor is on
        the last question (or there is none). */
    method NextQuestion()
      requires Valid()
      modifies this, stats
      ensures Valid()
      ensures old(currentQuestionIndex) < old(|questions|) - 1 ==>
        && currentQuestionIndex == old(currentQuestionIndex) + 1
        && questions == old(questions) && selectedAnswers == old(selectedAnswers)
        && score == old(score) && selectedSection == old(selectedSection)
        && isQuizCompleted == old(isQuizCompleted) && showResults == old(showResults)
        && unchanged(stats)
      ensures old(currentQuestionIndex) >= old(|questions|) - 1 ==> Finished()
    {
      if currentQuestionIndex < |questions| - 1 {
        currentQuestionIndex := currentQuestionIndex + 1;
      } else {
        FinishQuiz();
      }
    }

    /** Moves to the previous question; on the first question nothing changes. */
    method PreviousQuestion()
      requires Valid()
      modifies this`currentQuestionIndex
      ensures Valid()
      ensures currentQuestionIndex ==
        if old(currentQuestionIndex) > 0 then old(currentQuestionIndex) - 1 else old(currentQuestionIndex)
    {
      if currentQuestionIndex > 0 {
        currentQuestionIndex := currentQuestionIndex - 1;
      }
    }

    /** Scores the answers, marks the quiz completed and records the result.
        There is no guard against a second call. */
    method FinishQuiz()
      requires Valid()
      modifies this, stats
      ensures Valid() && Finished()
    {
      CalculateScore();
      isQuizCompleted := true;
      showResults := true;
      SaveProgress();
    }

    /** Sets the score to the number of correctly answered questions. */
    method CalculateScore()
      requires |selectedAnswers| == |questions|
      modifies this`score
      ensures score == CorrectCount(questions, selectedAnswers)
    {
      score := 0;
      for index := 0 to |selectedAnswers|
        invariant score == CorrectCount(questions[..index], selectedAnswers[..index])
      {
        assert questions[..index + 1][..index] == questions[..index];
        assert selectedAnswers[..index + 1][..index] == selectedAnswers[..index];
        var answer := selectedAnswers[index];
        if answer.Some? && answer.value == questions[index].correctAnswer {
          score := score + 1;
        }
      }
      assert questions[..|questions|] == questions;
      assert selectedAnswers[..|selectedAnswers|] == selectedAnswers;
    }

    /** Reads, updates and writes back the store: one more quiz, the running
        average moved by the new percentage, the best raised to it if higher,
        and the percentage appended to the section's history when the quiz
        was drawn from one section. */
    method SaveProgress()
      requires stats.Valid() && score <= |questions|
      modifies stats
      ensures stats.Valid()
      ensures stats.log == old(stats.log) + [Completion(ScorePercentage(), selectedSection)]
      ensures stats.totalQuizzesTaken == old(stats.totalQuizzesTaken) + 1
      ensures stats.averageScore == RunningAverage(old(stats.averageScore), stats.totalQuizzesTaken, ScorePercentage() as real)
      ensures stats.bestScore == Max(old(stats.bestScore), ScorePercentage())
      ensures stats.sectionScores == AppendHistory(old(stats.sectionScores), Completion(ScorePercentage(), selectedSection))
    {
      var pct := ScorePercentage();
      ghost var completion := Completion(pct, selectedSection);
      RecordKeepsConsistent(stats.totalQuizzesTaken, stats.averageScore, stats.bestScore, stats.sectionScores, stats.log, completion);

      var totalQuizzes := stats.totalQuizzesTaken;
      totalQuizzes := totalQuizzes + 1;
      stats.totalQuizzesTaken := totalQuizzes;

      var previousAverage := stats.averageScore;
      var newAverage := RunningAverage(previousAverage, totalQuizzes, pct as real);
      stats.averageScore := newAverage;

      var currentBest := stats.bestScore;
      if pct > currentBest {
        stats.bestScore := pct;
      }

      if selectedSection.Some? {
        var sectionKey := SectionKey(selectedSection.value);
        var sectionScores := if sectionKey in stats.sectionScores then stats.sectionScores[sectionKey] else [];
        sectionScores := sectionScores + [pct];
        stats.sectionScores := stats.sectionScores[sectionKey := sectionScores];
      }
      stats.log := stats.log + [completion];
    }

    /** The score as a percentage of the questions, truncated; 0 for an empty
        session. */
    function ScorePercentage(): (pct: nat)
      reads this
      ensures questions == [] ==> pct == 0
      ensures score <= |questions| ==> pct <= 100
      ensures questions != [] && score <= |questions| ==> (pct == 100 <==> score == |questions|)
    {
      var pct := Percentage(score, |questions|);
      if questions != [] && score <= |questions| then
        PercentageExtremes(score, |questions|);
        pct
      else pct
    }

    /** The estimated test score, between 10 and 950. */
    function EstimatedTOEICScore(): (est: int)
      reads this
      ensures score <= |questions| ==> BaseScore <= est <= BaseScore + MaxAdditional
    {
      EstimatedScore(ScorePercentage())
    }

    /** Whether the estimate reaches 850, which happens exactly from 90% up. */
    function IsTargetReached(): (reached: bool)
      reads this
      ensures reached <==> ScorePercentage() >= 90
    {
      TargetReachedIffNinety(ScorePercentage());
      EstimatedTOEICScore() >= TargetScore
    }

    /** The answer recorded for the current question. */
    function SelectedAnswer(): (a: Option<int>)
      reads this
      requires currentQuestionIndex < |selectedAnswers|
      ensures a.None? ==> selectedAnswers[currentQuestionIndex].None?
      ensures a.Some? ==> selectedAnswers[currentQuestionIndex] == a
    {
      selectedAnswers[currentQuestionIndex]
    }

    /** Nothing when question `index` is unanswered, otherwise whether the
        answer is the correct option. */
    function IsAnswerCorrect(index: nat): (r: Option<bool>)
      reads this
      requires index < |selectedAnswers| && index < |questions|
      ensures r.None? <==> selectedAnswers[index].None?
      ensures r == Some(true) <==> IsCorrect(questions[index], selectedAnswers[index])
    {
      match selectedAnswers[index]
      case None => None
      case Some(answer) => Some(answer == questions[index].correctAnswer)
    }
  }

  /** `finishQuiz` has no guard: finishing twice scores the same answers
      again and records the same completion a second time. */
  method FinishTwice(session: QuizSession)
    requires session.Valid()
    modifies session, session.stats
    ensures session.Valid()
    ensures session.questions == old(session.questions) && session.selectedAnswers == old(session.selectedAnswers)
    ensures session.score == CorrectCount(old(session.questions), old(session.selectedAnswers))
    ensures session.stats.totalQuizzesTaken == old(session.stats.totalQuizzesTaken) + 2
    ensures var c := Completion(session.ScorePercentage(), session.selectedSection);
      session.stats.log == old(session.stats.log) + [c, c]
  {
    session.FinishQuiz();
    session.FinishQuiz();
  }
}
