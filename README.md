# TOEICPrep quiz core in Dafny

TOEICPrep is an iOS app for practising TOEIC reading questions. A quiz session
draws up to twenty questions from a fixed question bank, either from one section
(Grammar, Vocabulary, Reading, Business English) or from all of them, in random
order. The learner picks one option per question and moves back and forth
through the list. Finishing scores the answers. The score becomes a truncated
percentage and an estimated test score on the 10–950 scale, which is checked
against the 850 target. The result is added to the persistent statistics:
number of quizzes, running average, best percentage, and one history of
percentages per section.

This project models that core:

- `optional.dfy` (`Optional`): Swift's `T?`.
- `questions.dfy` (`Questions`): the `Question` record and its initialiser
  defaults; the three tag enumerations and their labels; the bank as the
  concatenation of sixteen category lists; the filter-then-shuffle accessors
  `questions(for: section?)` and `questions(for: difficulty)`. The shuffle is a
  caller-supplied index permutation, and the model proves that the result is a
  permutation of exactly the admitted entries.
- `scoring.dfy` (`Scoring`): the arithmetic the view model derives from a
  session. This covers the correct-answer count, the truncated percentage,
  the score estimate, the 850 target, and the per-section and per-difficulty
  `(correct, total)` tallies. The two tally properties fill a dictionary in a
  loop, and are modelled as methods with loops.
- `statistics.dfy` (`Statistics`): the persistent store as a `Stats` object.
  It holds the four stored values and a ghost log of every recorded
  completion. Its invariant says the stored values are the count, running
  mean, best and per-section histories of that log.
- `quiz.dfy` (`Quiz`): the session itself, the `QuizSession` class. Its fields
  are those of `QuizViewModel`, and each operation is a method that updates
  them in place. Finishing runs the scoring loop and the read-modify-write of
  the store.

## Model

| member | source | states |
|---|---|---|
| Questions.AllSections | TOEICPrep/Question.swift:43-47 | every section occurs in `allCases`, and none twice |
| Questions.AllDifficulties | TOEICPrep/Question.swift:68-71 | every difficulty occurs in `allCases`, and none twice |
| Questions.SectionRawValue | TOEICPrep/Question.swift:43-47 | each section's raw value, which also names its score history; `TagNamesDistinct` proves no two sections share one |
| Questions.SectionShortName | TOEICPrep/Question.swift:49-56 | each section's short label; `TagNamesDistinct` proves no two sections share one |
| Questions.DifficultyRawValue | TOEICPrep/Question.swift:68-71 | each tier's raw value; `TagNamesDistinct` proves no two tiers share one |
| Questions.DifficultyTargetScore | TOEICPrep/Question.swift:81-87 | each tier's target score band; `TagNamesDistinct` proves no two tiers share one |
| Questions.PartRawValue | TOEICPrep/Question.swift:90-93 | each TOEIC part's raw value; `TagNamesDistinct` proves no two parts share one |
| Questions.PartShortName | TOEICPrep/Question.swift:95-101 | each TOEIC part's short label; `TagNamesDistinct` proves no two parts share one |
| Questions.TagNamesDistinct | TOEICPrep/Question.swift:43-101 | each label mapping (raw value, short name, target band) gives distinct strings to distinct cases |
| Questions.NewQuestion | TOEICPrep/Question.swift:23-40 | the initialiser with its three defaulted arguments; `NewQuestionDefaults` states what it stores |
| Questions.NewQuestionDefaults | TOEICPrep/Question.swift:23-40 | the initialiser's defaults are an empty explanation, intermediate difficulty and Part 5, and it stores the other arguments unchanged |
| Questions.CorrectOption | TOEICPrep/ResultView.swift:443 | in a well-formed question, indexing the options by the correct answer yields one of its options |
| Questions.SampleQuestions | TOEICPrep/Question.swift:1165-1182 | the bank is the sixteen category lists joined in source order; `SampleQuestionsComposition` states its size and well-formedness |
| Questions.SampleQuestionsComposition | TOEICPrep/Question.swift:1165-1182 | the bank's size is the sum of the sixteen list sizes; the bank is well formed exactly when every list is |
| Questions.Filter | TOEICPrep/Question.swift:1188 | the filter keeps exactly the bank entries carrying the tag value, and is never longer than the bank |
| Questions.FilterMultiset | TOEICPrep/Question.swift:1188 | each matching entry is kept as often as the bank holds it; every other entry is dropped |
| Questions.SectionsPartition | TOEICPrep/Question.swift:1184-1189 | the four section filters partition the bank: their sizes add up to its size |
| Questions.DifficultiesPartition | TOEICPrep/Question.swift:1191-1193 | the three difficulty filters partition the bank |
| Questions.PickMultiset | TOEICPrep/Question.swift:1186 | which elements a reordering picks depends only on the multiset of indices |
| Questions.Shuffled | TOEICPrep/Question.swift:1186 | shuffling by an index permutation gives the same multiset of elements |
| Questions.QuestionsForSection | TOEICPrep/Question.swift:1184-1189 | no section gives a permutation of the whole bank; a section gives a permutation of exactly its entries; the result is never longer than the bank |
| Questions.QuestionsForDifficulty | TOEICPrep/Question.swift:1191-1193 | a permutation of exactly the entries of the tier, never longer than the bank |
| Questions.SectionDrawsAgree | TOEICPrep/Question.swift:1184-1189 | two shuffles of the same filter differ only in order |
| Scoring.CorrectCount | TOEICPrep/QuizViewModel.swift:73-80 | the score is at most the number of questions |
| Scoring.CorrectCountIsSlotCount | TOEICPrep/QuizViewModel.swift:73-80 | the score is the number of positions whose answer is the correct option; unanswered slots never count |
| Scoring.CorrectCountExtremes | TOEICPrep/QuizViewModel.swift:73-80 | all answers correct gives full marks; no answers gives 0 |
| Scoring.Percentage | TOEICPrep/QuizViewModel.swift:114-117 | 0 for an empty session, otherwise `score*100/count` truncated (`pct*count <= score*100 < (pct+1)*count`), and at most 100 |
| Scoring.PercentageExtremes | TOEICPrep/QuizViewModel.swift:114-117 | the percentage is 100 exactly when every answer is correct, and 0 exactly when fewer than one in a hundred is |
| Scoring.ThreeQuestionSession | TOEICPrep/QuizViewModel.swift:114-117 | two correct answers out of three score 2 and give 66, not 67 |
| Scoring.EstimatedScore | TOEICPrep/QuizViewModel.swift:119-126 | the estimate is 10 plus the truncated `pct*940/100`, and lies in 10..950 for a percentage in 0..100 |
| Scoring.EstimatedScoreMonotonic | TOEICPrep/QuizViewModel.swift:119-126 | a higher percentage never gives a lower estimate |
| Scoring.EstimatedScoreEnds | TOEICPrep/QuizViewModel.swift:119-126 | 0% is 10, 100% is 950, 90% is 856 |
| Scoring.TargetReachedIffNinety | TOEICPrep/QuizViewModel.swift:128-132 | the estimate reaches 850 exactly when the percentage is at least 90 |
| Scoring.TargetReached | TOEICPrep/QuizViewModel.swift:128-132 | the target is an estimate of at least 850; `TargetReachedIffNinety` characterises it by the percentage |
| Scoring.TallyBy | TOEICPrep/QuizViewModel.swift:144-159 | a tally's correct count never exceeds its total, which never exceeds the session size |
| Scoring.TallyTotalIsFilterSize | TOEICPrep/QuizViewModel.swift:162-177 | a tally's total is the number of session questions with the tag; an absent tag gets `(0, 0)` |
| Scoring.SectionTalliesSum | TOEICPrep/QuizViewModel.swift:162-177 | over the four sections the totals add up to the session size and the correct counts to the score |
| Scoring.DifficultyTalliesSum | TOEICPrep/QuizViewModel.swift:144-159 | over the three difficulties the totals add up to the session size and the correct counts to the score |
| Scoring.ScoreBySection | TOEICPrep/QuizViewModel.swift:162-177 | the dictionary has an entry for every section, and each entry is that section's tally |
| Scoring.ScoreByDifficulty | TOEICPrep/QuizViewModel.swift:144-159 | the dictionary has an entry for every difficulty, and each entry is that difficulty's tally |
| Statistics.SectionKeysDistinct | TOEICPrep/QuizViewModel.swift:103 | distinct sections store their histories under distinct `score_<raw value>` keys |
| Statistics.SectionKey | TOEICPrep/QuizViewModel.swift:103 | a section's history key is `score_` followed by its raw value |
| Statistics.BestOf | TOEICPrep/QuizViewModel.swift:95-99 | the best stored percentage is at least every recorded one, and is 0 or one of them |
| Statistics.TotalBounds | TOEICPrep/QuizViewModel.swift:90-93 | with percentages in 0..100 the recorded sum lies in 0..100 per quiz |
| Statistics.LogAppend | TOEICPrep/QuizViewModel.swift:82-108 | recording one completion adds it to the sum, raises the best if higher, takes one running-average step, and extends only its own section's history |
| Statistics.RunningAverage | TOEICPrep/QuizViewModel.swift:91-93 | one running-average update: the previous mean weighted by the earlier count, plus the new value, divided by the new count |
| Statistics.RunningAverageStep | TOEICPrep/QuizViewModel.swift:91-93 | one update keeps "mean times count is the total": the new mean times the new count is the old total plus the new value |
| Statistics.MeanIsAverage | TOEICPrep/QuizViewModel.swift:90-93 | the running average after n quizzes, times n, is the sum of their percentages |
| Statistics.MeanInRange | TOEICPrep/QuizViewModel.swift:90-93 | the running average of percentages in 0..100 lies in 0..100 |
| Statistics.AppendHistory | TOEICPrep/QuizViewModel.swift:101-107 | the percentage is appended to the quiz's section history, a missing history reads as empty, and every other section's history is unchanged |
| Statistics.RecordKeepsConsistent | TOEICPrep/QuizViewModel.swift:82-108 | the store's update (count + 1, running average, best, section history) keeps the stored values those of the extended log |
| Statistics.Stats.constructor | TOEICPrep/QuizViewModel.swift:86-96 | an empty store reads 0 for the count, average and best and holds no histories, which matches an empty log |
| Statistics.Stats.AverageInRange | TOEICPrep/QuizViewModel.swift:90-99 | the stored average and best percentage stay within 0..100 |
| Quiz.Draw | TOEICPrep/QuizViewModel.swift:29-30 | a draw is at most 20 questions and a prefix of the shuffled section filter |
| Quiz.DrawProperties | TOEICPrep/QuizViewModel.swift:28-31 | a draw has `min(20, available)` questions, all from the bank and the chosen section, none more often than the bank holds it; every admitted entry is drawn when there are at most 20; well-formed banks give well-formed draws |
| Quiz.QuizSession.constructor | TOEICPrep/QuizViewModel.swift:23-26 | a new session keeps its section, which defaults to none (all sections), and is freshly loaded |
| Quiz.QuizSession.LoadQuestions | TOEICPrep/QuizViewModel.swift:28-36 | after loading: a fresh draw of `min(20, available)` questions, all answers empty, cursor and score 0, both flags false, section kept, invariant holds |
| Quiz.QuizSession.RestartQuiz | TOEICPrep/QuizViewModel.swift:110-112 | restarting is loading again |
| Quiz.QuizSession.CurrentQuestion | TOEICPrep/QuizViewModel.swift:38-41 | the question under the cursor, present exactly when the cursor is in range; a session in its invariant has one exactly when it has questions |
| Quiz.QuizSession.Progress | TOEICPrep/QuizViewModel.swift:43-46 | 0 for an empty session, otherwise in (0, 1], and 1 exactly at the last question |
| Quiz.QuizSession.SelectAnswer | TOEICPrep/QuizViewModel.swift:48-50 | only the current slot changes, to the given index (unchecked), replacing any earlier answer; nothing else changes |
| Quiz.QuizSession.NextQuestion | TOEICPrep/QuizViewModel.swift:52-58 | before the last question it advances the cursor and changes nothing else, the store included; otherwise it finishes the quiz |
| Quiz.QuizSession.PreviousQuestion | TOEICPrep/QuizViewModel.swift:60-64 | it moves the cursor back unless it is on the first question; nothing else changes |
| Quiz.QuizSession.FinishQuiz | TOEICPrep/QuizViewModel.swift:66-71 | the score is the correct-answer count, both flags are set, one completion is recorded in the store, and the invariant holds |
| Quiz.QuizSession.CalculateScore | TOEICPrep/QuizViewModel.swift:73-80 | the loop sets the score to the number of correctly answered questions |
| Quiz.QuizSession.SaveProgress | TOEICPrep/QuizViewModel.swift:82-108 | the count rises by one, the average takes one running-average step, the best becomes the maximum, only the quiz's section history grows, and the store stays consistent with its log |
| Quiz.QuizSession.ScorePercentage | TOEICPrep/QuizViewModel.swift:114-117 | 0 for an empty session, at most 100, and 100 exactly when every answer is correct |
| Quiz.QuizSession.EstimatedTOEICScore | TOEICPrep/QuizViewModel.swift:119-126 | the estimate lies in 10..950 |
| Quiz.QuizSession.IsTargetReached | TOEICPrep/QuizViewModel.swift:128-132 | the target is reached exactly when the percentage is at least 90 |
| Quiz.QuizSession.SelectedAnswer | TOEICPrep/QuizViewModel.swift:134-136 | the answer slot at the cursor |
| Quiz.QuizSession.IsAnswerCorrect | TOEICPrep/QuizViewModel.swift:138-141 | nothing exactly when the slot is unanswered; `true` exactly when the slot holds the correct option |
| Quiz.FinishTwice | TOEICPrep/QuizViewModel.swift:66-71 | finishing twice leaves the questions and answers unchanged and scores them again to the same correct-answer count, but records the same completion twice and counts two quizzes |

## Where the code differs from what one might expect

The model follows the code in each of these cases:

- `scorePercentage` truncates. Two correct answers out of three give 66, not 67
  (`Scoring.ThreeQuestionSession`).
- `selectAnswer` stores whatever index it is given. It does not check that the
  index addresses one of the four options.
- `finishQuiz` has no guard against a second call. Calling it again rescores
  the same answers, which gives the same score, and records the completion in
  the store a second time (`Quiz.FinishTwice`). It is not idempotent.
- The store keeps section histories under string keys `score_<raw value>`, not
  under the enum itself. The model keeps that string map and proves that the
  keys of different sections never collide.

## Left out

- SwiftUI views (home, quiz and result screens), the `icon` and `color` switches of the enums, and the HomeView estimate `Int(averageScore * 9.9)`: presentation only.
- `UserDefaults` persistence: the store is an in-memory `Stats` object that starts empty. Reading a missing key as 0 or as an empty history is modelled. Persistence across launches and other writers of the same keys are not.
- Swift's `Double`: `progress` and the stored average are exact `real` values, and rounding of the running average is not modelled.
- Quiz.QuizSession.ScorePercentage: computed as the exact integer quotient `score*100/count`. The source's `Int((Double(score)/Double(count))*100)` gives the same value for every count up to 20, which is all a session can have. For larger counts the two can differ by one: 29 of 50 is one such case.
- Quiz.QuizSession.EstimatedTOEICScore: computed as `10 + pct*940/100` in integers. For every percentage from 0 to 100 this equals the source's `Double` expression truncated.
- Randomness of `shuffled()`: the order is an index permutation passed in by the caller. Nothing about its distribution is modelled.
- `UUID()` in the `Question` initialiser: the identifier is a `nat` parameter.
- The literal question texts, options and explanations of the sixteen category lists. The bank is a parameter, so the model does not prove that every literal entry has four options and a correct index in 0..3. It states that as `BankWellFormed` and proves that draws preserve it.
- SwiftData scaffolding (`@Model`, the app entry point, `Item`). `Question` is a `@Model` class in the source, but nothing in the core changes a question after it is created, so it is a datatype here.
- Quiz.QuizSession.SelectedAnswer, Quiz.QuizSession.IsAnswerCorrect, Quiz.QuizSession.SelectAnswer: the source indexes the answer array without a check and traps when the index is out of range. The model requires the index to be in range instead of modelling the trap.
