/**
  The aggregate statistics that survive between quizzes: how many quizzes
  were taken, their running average and best percentage, and one history
  of percentages per section. In the app they live in the process-wide
  key-value store; here they are the fields of a `Stats` object, and a
  ghost log of every recorded completion says what the fields must be.
*/
module Statistics {
  import opened Optional
  import opened Questions

  /** One recorded quiz: its percentage and the section it was drawn from. */
  datatype Completion = Completion(percentage: int, section: Option<Section>)

  /** The store key of a section's history. */
  function SectionKey(s: Section): (key: string)
    ensures "score_" <= key && key[|"score_"|..] == SectionRawValue(s)
  {
    "score_" + SectionRawValue(s)
  }

  /** Distinct sections have distinct keys, so appending to one section's
      history leaves the others alone. */
  lemma SectionKeysDistinct(s: Section, t: Section)
    requires s != t
    ensures SectionKey(s) != SectionKey(t)
  {
    TagNamesDistinct();
    var prefix := "score_";
    assert SectionKey(s)[|prefix|..] == SectionRawValue(s);
    assert SectionKey(t)[|prefix|..] == SectionRawValue(t);
  }

  /** The sum of the recorded percentages. */
  function TotalOf(log: seq<Completion>): int
    decreases |log|
  {
    if log == [] then 0 else TotalOf(log[..|log| - 1]) + log[|log| - 1].percentage
  }

  /** The best recorded percentage, starting from 0. */
  function BestOf(log: seq<Completion>): (best: int)
    ensures best >= 0
    ensures forall i :: 0 <= i < |log| ==> log[i].percentage <= best
    ensures best == 0 || exists i :: 0 <= i < |log| && log[i].percentage == best
    decreases |log|
  {
    if log == [] then 0
    else
      var before, last := BestOf(log[..|log| - 1]), log[|log| - 1].percentage;
      assert forall i :: 0 <= i < |log| - 1 ==> log[..|log| - 1][i] == log[i];
      if last > before then last else before
  }

  /** The percentages recorded for section `s`, oldest first. */
  function HistoryOf(log: seq<Completion>, s: Section): seq<int>
    decreases |log|
  {
    if log == [] then []
    else
      var last := log[|log| - 1];
      HistoryOf(log[..|log| - 1], s) + (if last.section == Some(s) then [last.percentage] else [])
  }

  /** A percentage lies in 0 .. 100. */
  predicate InRange(pct: int) {
    0 <= pct <= 100
  }

  /** With every percentage in 0 .. 100 their sum is at most 100 per quiz. */
  lemma {:induction false} TotalBounds(log: seq<Completion>)
    requires forall i :: 0 <= i < |log| ==> InRange(log[i].percentage)
    ensures 0 <= TotalOf(log) <= 100 * |log|
    decreases |log|
  {
    if log != [] {
      TotalBounds(log[..|log| - 1]);
    }
  }

  /** Recording one more completion adds its percentage to the total, raises
      the best to it if higher, and extends only its own section's history. */
  lemma LogAppend(log: seq<Completion>, c: Completion)
    ensures TotalOf(log + [c]) == TotalOf(log) + c.percentage
    ensures BestOf(log + [c]) == if c.percentage > BestOf(log) then c.percentage else BestOf(log)
    ensures forall s :: HistoryOf(log + [c], s) == HistoryOf(log, s) + (if c.section == Some(s) then [c.percentage] else [])
    ensures MeanOf(log + [c]) == RunningAverage(MeanOf(log), |log| + 1, c.percentage as real)
  {
    assert (log + [c])[..|log|] == log;
  }

  /** The running-average update of the store: the mean of `count - 1`
      values moved by one more `value`. */
  function RunningAverage(previous: real, count: nat, value: real): (mean: real)
    requires count >= 1
    ensures count == 1 ==> mean == value
  {
    (previous * (count - 1) as real + value) / count as real
  }

  /** The average the store holds after the quizzes of `log`: 0 before the
      first (what the store reads for a missing key), then one running-average
      update per quiz. */
  function MeanOf(log: seq<Completion>): real
    decreases |log|
  {
    if log == [] then 0.0
    else RunningAverage(MeanOf(log[..|log| - 1]), |log|, log[|log| - 1].percentage as real)
  }

  /** One running-average step keeps "mean times count is the total": the
      new mean times the new count is the old total plus the new value. */
  lemma RunningAverageStep(mean: real, count: nat, value: real, total: real)
    requires count >= 1 && mean * (count - 1) as real == total
    ensures RunningAverage(mean, count, value) * count as real == total + value
  {
  }

  /** The running average is the arithmetic mean: times the number of
      quizzes it gives the sum of their percentages. */
  lemma {:induction false} MeanIsAverage(log: seq<Completion>)
    ensures MeanOf(log) * |log| as real == TotalOf(log) as real
    decreases |log|
  {
    if log != [] {
      var init := log[..|log| - 1];
      MeanIsAverage(init);
      RunningAverageStep(MeanOf(init), |log|, log[|log| - 1].percentage as real, TotalOf(init) as real);
    }
  }

  /** A mean of values in 0 .. 100 lies in 0 .. 100. */
  lemma MeanBounds(mean: real, n: real, total: real)
    requires n >= 1.0 && mean * n == total && 0.0 <= total <= 100.0 * n
    ensures 0.0 <= mean <= 100.0
  {
  }

  /** The history a map of store entries holds for a section; a missing key
      reads as empty. */
  function StoredHistory(scores: map<string, seq<int>>, s: Section): seq<int> {
    if SectionKey(s) in scores then scores[SectionKey(s)] else []
  }

  /** The mean of percentages in 0 .. 100 lies in 0 .. 100. */
  lemma MeanInRange(log: seq<Completion>)
    requires forall i :: 0 <= i < |log| ==> InRange(log[i].percentage)
    ensures 0.0 <= MeanOf(log) <= 100.0
  {
    if log != [] {
      TotalBounds(log);
      MeanIsAverage(log);
      var n, total := |log| as real, TotalOf(log) as real;
      assert 0.0 <= total <= 100.0 * n;
      MeanBounds(MeanOf(log), n, total);
    }
  }

  /** The store entries with a completion's percentage appended to its
      section's history; a quiz over all sections touches no history. */
  function AppendHistory(scores: map<string, seq<int>>, c: Completion): (updated: map<string, seq<int>>)
    ensures forall s :: StoredHistory(updated, s) == StoredHistory(scores, s) + (if c.section == Some(s) then [c.percentage] else [])
  {
    if c.section.Some? then
      var key := SectionKey(c.section.value);
      var updated := scores[key := StoredHistory(scores, c.section.value) + [c.percentage]];
      assert forall s :: s != c.section.value ==> SectionKey(s) != key by {
        forall s | s != c.section.value ensures SectionKey(s) != key {
          SectionKeysDistinct(s, c.section.value);
        }
      }
      updated
    else scores
  }

  /** Stored values that are the count, mean, best and per-section histories
      of `log`, whose percentages all lie in 0 .. 100. */
  ghost predicate Consistent(total: int, average: real, best: int, scores: map<string, seq<int>>, log: seq<Completion>) {
    && total == |log|
    && average == MeanOf(log)
    && best == BestOf(log)
    && (forall i :: 0 <= i < |log| ==> InRange(log[i].percentage))
    && forall s: Section :: StoredHistory(scores, s) == HistoryOf(log, s)
  }

  /** Recording a completion the way the app does (count plus one, running
      average, best raised, section history extended) keeps the stored values
      those of the log with the completion appended. */
  lemma RecordKeepsConsistent(total: int, average: real, best: int, scores: map<string, seq<int>>, log: seq<Completion>, c: Completion)
    requires Consistent(total, average, best, scores, log) && InRange(c.percentage)
    ensures total + 1 >= 1
    ensures Consistent(total + 1, RunningAverage(average, total + 1, c.percentage as real),
                       if c.percentage > best then c.percentage else best, AppendHistory(scores, c), log + [c])
  {
    LogAppend(log, c);
    var log' := log + [c];
    assert forall i :: 0 <= i < |log| ==> log'[i] == log[i];
  }

  class Stats {
    var totalQuizzesTaken: int
    var averageScore: real
    var bestScore: int
    var sectionScores: map<string, seq<int>>

    /** Every completion recorded so far, oldest first. */
    ghost var log: seq<Completion>

    /** The fields are the count, mean, best and per-section histories of the log. */
    ghost predicate Valid()
      reads this
    {
      Consistent(totalQuizzesTaken, averageScore, bestScore, sectionScores, log)
    }

    /** The history stored under a section's key; a missing key reads as empty. */
    function History(s: Section): seq<int>
      reads this
    {
      StoredHistory(sectionScores, s)
    }

    /** A fresh store: every key reads as zero or empty. */
    constructor ()
      ensures Valid() && log == []
      ensures totalQuizzesTaken == 0 && averageScore == 0.0 && bestScore == 0 && sectionScores == map[]
    {
      totalQuizzesTaken, averageScore, bestScore, sectionScores := 0, 0.0, 0, map[];
      log := [];
    }

    /** The running average is the mean of the recorded percentages, so it
        stays within 0 .. 100, as does the best percentage. */
    lemma AverageInRange()
      requires Valid()
      ensures 0.0 <= averageScore <= 100.0
      ensures InRange(bestScore)
    {
      MeanInRange(log);
      if bestScore != 0 {
        var i :| 0 <= i < |log| && log[i].percentage == bestScore;
      }
    }
  }
}
