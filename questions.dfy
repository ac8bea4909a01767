/**
  The question catalogue of TOEICPrep: the question record, its three tag
  enumerations, the bank built from sixteen category lists, and the two
  filter-then-shuffle accessors that sessions draw from.

  The literal prompts, options and explanations are content, not behaviour:
  the bank is a parameter (a `Catalogue` of sixteen lists), and the random
  order produced by `shuffled()` is an index permutation supplied by the
  caller.
*/
module Questions {
  import opened Optional

  // ---------------------------------------------------------------------------
  // Tags
  // ---------------------------------------------------------------------------

  datatype Section = Grammar | Vocabulary | Reading | BusinessEnglish

  datatype Difficulty = Intermediate | UpperIntermediate | Advanced

  datatype Part = Part5 | Part6 | Part7

  /** `QuestionSection.allCases`, in declaration order. */
  function AllSections(): (cases: seq<Section>)
    ensures forall s: Section :: s in cases
    ensures forall i, j :: 0 <= i < j < |cases| ==> cases[i] != cases[j]
  {
    var cases := [Grammar, Vocabulary, Reading, BusinessEnglish];
    assert forall s: Section :: s in cases by {
      forall s: Section ensures s in cases {
        assert s == cases[0] || s == cases[1] || s == cases[2] || s == cases[3];
      }
    }
    cases
  }

  /** `QuestionDifficulty.allCases`, in declaration order. */
  function AllDifficulties(): (cases: seq<Difficulty>)
    ensures forall d: Difficulty :: d in cases
    ensures forall i, j :: 0 <= i < j < |cases| ==> cases[i] != cases[j]
  {
    var cases := [Intermediate, UpperIntermediate, Advanced];
    assert forall d: Difficulty :: d in cases by {
      forall d: Difficulty ensures d in cases {
        assert d == cases[0] || d == cases[1] || d == cases[2];
      }
    }
    cases
  }

  /** The raw value of a section; it also names the section's score history. */
  function SectionRawValue(s: Section): string {
    match s
    case Grammar => "Grammar"
    case Vocabulary => "Vocabulary"
    case Reading => "Reading"
    case BusinessEnglish => "Business English"
  }

  function SectionShortName(s: Section): string {
    match s
    case Grammar => "Grammar"
    case Vocabulary => "Vocab"
    case Reading => "Reading"
    case BusinessEnglish => "Business"
  }

  function DifficultyRawValue(d: Difficulty): string {
    match d
    case Intermediate => "Intermediate"
    case UpperIntermediate => "Upper-Intermediate"
    case Advanced => "Advanced"
  }

  /** The score band a difficulty tier aims at. */
  function DifficultyTargetScore(d: Difficulty): string {
    match d
    case Intermediate => "600-750"
    case UpperIntermediate => "750-850"
    case Advanced => "850+"
  }

  function PartRawValue(p: Part): string {
    match p
    case Part5 => "Part 5 - Incomplete Sentences"
    case Part6 => "Part 6 - Text Completion"
    case Part7 => "Part 7 - Reading Comprehension"
  }

  function PartShortName(p: Part): string {
    match p
    case Part5 => "Part 5"
    case Part6 => "Part 6"
    case Part7 => "Part 7"
  }

  /** Every name mapping is injective: no two cases share a label. */
  lemma TagNamesDistinct()
    ensures forall s, t: Section :: s != t ==> SectionRawValue(s) != SectionRawValue(t)
    ensures forall s, t: Section :: s != t ==> SectionShortName(s) != SectionShortName(t)
    ensures forall d, e: Difficulty :: d != e ==> DifficultyRawValue(d) != DifficultyRawValue(e)
    ensures forall d, e: Difficulty :: d != e ==> DifficultyTargetScore(d) != DifficultyTargetScore(e)
    ensures forall p, o: Part :: p != o ==> PartRawValue(p) != PartRawValue(o)
    ensures forall p, o: Part :: p != o ==> PartShortName(p) != PartShortName(o)
  {
  }

  // ---------------------------------------------------------------------------
  // The question record
  // ---------------------------------------------------------------------------

  /** One bank entry. `id` stands for the UUID drawn when the entry is created. */
  datatype Question = Question(
    id: nat,
    text: string,
    options: seq<string>,
    correctAnswer: int,
    section: Section,
    explanation: string,
    difficulty: Difficulty,
    partType: Part)

  /** The record's initialiser, with its three defaulted arguments. */
  function NewQuestion(
    id: nat,
    text: string,
    options: seq<string>,
    correctAnswer: int,
    section: Section,
    explanation: string := "",
    difficulty: Difficulty := Intermediate,
    partType: Part := Part5): Question
  {
    Question(id, text, options, correctAnswer, section, explanation, difficulty, partType)
  }

  /** Leaving out the last three arguments gives an empty explanation, an
      intermediate Part 5 question; the other arguments are stored as given. */
  lemma NewQuestionDefaults(id: nat, text: string, options: seq<string>, correctAnswer: int, section: Section)
    ensures var q := NewQuestion(id, text, options, correctAnswer, section);
      && q.explanation == "" && q.difficulty == Intermediate && q.partType == Part5
      && q.id == id && q.text == text && q.options == options
      && q.correctAnswer == correctAnswer && q.section == section
  {
  }

  /** Four options and a correct index that addresses one of them. */
  predicate WellFormed(q: Question) {
    |q.options| == 4 && 0 <= q.correctAnswer < |q.options|
  }

  predicate BankWellFormed(bank: seq<Question>) {
    forall q :: q in bank ==> WellFormed(q)
  }

  /** The text of the correct option, as the review screen shows it. */
  function CorrectOption(q: Question): (option: string)
    requires WellFormed(q)
    ensures option in q.options
  {
    q.options[q.correctAnswer]
  }

  function SectionOf(q: Question): Section { q.section }

  function DifficultyOf(q: Question): Difficulty { q.difficulty }

  // ---------------------------------------------------------------------------
  // The catalogue
  // ---------------------------------------------------------------------------

  /** The sixteen category lists of the bank. */
  datatype Catalogue = Catalogue(
    verbTense: seq<Question>,
    subjectVerb: seq<Question>,
    wordForm: seq<Question>,
    modalVerb: seq<Question>,
    passiveVoice: seq<Question>,
    preposition: seq<Question>,
    conjunction: seq<Question>,
    businessVocab: seq<Question>,
    conditional: seq<Question>,
    reading: seq<Question>,
    relativeClause: seq<Question>,
    advancedStructure: seq<Question>,
    officialStyle: seq<Question>,
    advancedVocabulary: seq<Question>,
    collocations: seq<Question>,
    gerundInfinitive: seq<Question>)

  /** The whole bank: the category lists concatenated in a fixed order. */
  function SampleQuestions(c: Catalogue): seq<Question> {
    c.verbTense + c.subjectVerb + c.wordForm + c.modalVerb
    + c.passiveVoice + c.preposition + c.conjunction + c.businessVocab
    + c.conditional + c.reading + c.relativeClause + c.advancedStructure
    + c.officialStyle + c.advancedVocabulary + c.collocations + c.gerundInfinitive
  }

  /** The bank holds every entry of every list and nothing else, so its size is
      the sum of the list sizes and it is well formed when every list is. */
  lemma SampleQuestionsComposition(c: Catalogue)
    ensures |SampleQuestions(c)| ==
      |c.verbTense| + |c.subjectVerb| + |c.wordForm| + |c.modalVerb|
      + |c.passiveVoice| + |c.preposition| + |c.conjunction| + |c.businessVocab|
      + |c.conditional| + |c.reading| + |c.relativeClause| + |c.advancedStructure|
      + |c.officialStyle| + |c.advancedVocabulary| + |c.collocations| + |c.gerundInfinitive|
    ensures BankWellFormed(SampleQuestions(c)) <==>
      && BankWellFormed(c.verbTense) && BankWellFormed(c.subjectVerb)
      && BankWellFormed(c.wordForm) && BankWellFormed(c.modalVerb)
      && BankWellFormed(c.passiveVoice) && BankWellFormed(c.preposition)
      && BankWellFormed(c.conjunction) && BankWellFormed(c.businessVocab)
      && BankWellFormed(c.conditional) && BankWellFormed(c.reading)
      && BankWellFormed(c.relativeClause) && BankWellFormed(c.advancedStructure)
      && BankWellFormed(c.officialStyle) && BankWellFormed(c.advancedVocabulary)
      && BankWellFormed(c.collocations) && BankWellFormed(c.gerundInfinitive)
  {
  }

  // ---------------------------------------------------------------------------
  // Filtering
  // ---------------------------------------------------------------------------

  /** The entries of `bank` whose tag `key` equals `k`, in bank order. */
  function Filter<K(==)>(bank: seq<Question>, key: Question -> K, k: K): (kept: seq<Question>)
    ensures |kept| <= |bank|
    ensures forall q :: q in kept <==> q in bank && key(q) == k
    decreases |bank|
  {
    if bank == [] then []
    else
      var last := bank[|bank| - 1];
      assert bank == bank[..|bank| - 1] + [last];
      Filter(bank[..|bank| - 1], key, k) + (if key(last) == k then [last] else [])
  }

  /** Filtering keeps every matching entry as often as the bank holds it and
      drops every other one. */
  lemma {:induction false} FilterMultiset<K>(bank: seq<Question>, key: Question -> K, k: K, q: Question)
    ensures multiset(Filter(bank, key, k))[q] == if key(q) == k then multiset(bank)[q] else 0
    decreases |bank|
  {
    if bank != [] {
      var init, last := bank[..|bank| - 1], bank[|bank| - 1];
      assert bank == init + [last];
      FilterMultiset(init, key, k, q);
    }
  }

  /** Every entry has exactly one section, so the four section filters
      partition the bank. */
  lemma {:induction false} SectionsPartition(bank: seq<Question>)
    ensures |Filter(bank, SectionOf, Grammar)| + |Filter(bank, SectionOf, Vocabulary)|
          + |Filter(bank, SectionOf, Reading)| + |Filter(bank, SectionOf, BusinessEnglish)| == |bank|
    decreases |bank|
  {
    if bank != [] {
      var init, last := bank[..|bank| - 1], bank[|bank| - 1];
      SectionsPartition(init);
      forall s: Section
        ensures |Filter(bank, SectionOf, s)| == |Filter(init, SectionOf, s)| + (if last.section == s then 1 else 0)
      {
      }
    }
  }

  /** Every entry has exactly one difficulty, so the three difficulty filters
      partition the bank. */
  lemma {:induction false} DifficultiesPartition(bank: seq<Question>)
    ensures |Filter(bank, DifficultyOf, Intermediate)| + |Filter(bank, DifficultyOf, UpperIntermediate)|
          + |Filter(bank, DifficultyOf, Advanced)| == |bank|
    decreases |bank|
  {
    if bank != [] {
      var init, last := bank[..|bank| - 1], bank[|bank| - 1];
      DifficultiesPartition(init);
      forall d: Difficulty
        ensures |Filter(bank, DifficultyOf, d)| == |Filter(init, DifficultyOf, d)| + (if last.difficulty == d then 1 else 0)
      {
      }
    }
  }

  // ---------------------------------------------------------------------------
  // Shuffling
  // ---------------------------------------------------------------------------

  /** The indices 0 .. n-1 in order. */
  function Range(n: nat): seq<nat> {
    seq(n, i => i)
  }

  /** Every index in `p` is below `n`. */
  predicate Below(p: seq<nat>, n: nat) {
    forall i :: 0 <= i < |p| ==> p[i] < n
  }

  /** Cutting an element out of an index list keeps it in bounds. */
  lemma BelowRemove(p: seq<nat>, n: nat, j: nat)
    requires Below(p, n) && j < |p|
    ensures Below(p[..j] + p[j + 1..], n)
  {
    var r := p[..j] + p[j + 1..];
    forall i | 0 <= i < |r| ensures r[i] < n {
      if i < j { assert r[i] == p[i]; } else { assert r[i] == p[i + 1]; }
    }
  }

  /** `perm` lists each of the indices 0 .. n-1 exactly once. */
  predicate IsIndexPerm(perm: seq<nat>, n: nat) {
    Below(perm, n) && multiset(perm) == multiset(Range(n))
  }

  /** The elements of `s` at the indices `p`, in the order of `p`. */
  function Pick<T>(s: seq<T>, p: seq<nat>): (r: seq<T>)
    requires Below(p, |s|)
    ensures |r| == |p|
  {
    if p == [] then [] else [s[p[0]]] + Pick(s, p[1..])
  }

  lemma {:induction false} PickAt<T>(s: seq<T>, p: seq<nat>, i: nat)
    requires Below(p, |s|) && i < |p|
    ensures Pick(s, p)[i] == s[p[i]]
    decreases |p|
  {
    if i > 0 {
      PickAt(s, p[1..], i - 1);
    }
  }

  lemma {:induction false} PickAppend<T>(s: seq<T>, a: seq<nat>, b: seq<nat>)
    requires Below(a, |s|) && Below(b, |s|)
    ensures Pick(s, a + b) == Pick(s, a) + Pick(s, b)
    decreases |a|
  {
    if a == [] {
      assert a + b == b;
    } else {
      assert (a + b)[1..] == a[1..] + b;
      PickAppend(s, a[1..], b);
    }
  }

  /** Taking out the element at `j` removes one occurrence of it. */
  lemma RemoveAt<T>(q: seq<T>, j: nat)
    requires j < |q|
    ensures q == q[..j] + ([q[j]] + q[j + 1..])
    ensures multiset(q) == multiset(q[..j] + q[j + 1..]) + multiset{q[j]}
  {
    assert q == q[..j] + ([q[j]] + q[j + 1..]);
  }

  /** Picking around position `j` of `q`: with and without the index `q[j]`. */
  lemma PickAround<T>(s: seq<T>, q: seq<nat>, j: nat)
    requires Below(q, |s|) && j < |q|
    ensures Below(q[..j] + q[j + 1..], |s|)
    ensures multiset(Pick(s, q)) == multiset(Pick(s, q[..j] + q[j + 1..])) + multiset{s[q[j]]}
  {
    var before, after := q[..j], q[j + 1..];
    RemoveAt(q, j);
    BelowRemove(q, |s|, j);
    var front, back := Pick(s, before), Pick(s, after);
    PickAppend(s, before, after);
    assert Pick(s, q) == front + ([s[q[j]]] + back) by {
      PickAppend(s, before, [q[j]] + after);
      PickAppend(s, [q[j]], after);
      assert [q[j]][1..] == [];
    }
  }

  lemma Cancel<T>(a: multiset<T>, b: multiset<T>, x: T)
    requires a + multiset{x} == b + multiset{x}
    ensures a == b
  {
    assert a == (a + multiset{x}) - multiset{x};
  }

  /** An index that occurs in `q` occurs at some position of it. */
  lemma FindIndex(q: seq<nat>, x: nat) returns (j: nat)
    requires x in multiset(q)
    ensures j < |q| && q[j] == x
  {
    j :| 0 <= j < |q| && q[j] == x;
  }

  /** Which elements are picked depends only on the multiset of indices. */
  lemma {:induction false} PickMultiset<T>(s: seq<T>, p: seq<nat>, q: seq<nat>)
    requires Below(p, |s|)
    requires Below(q, |s|)
    requires multiset(p) == multiset(q)
    ensures multiset(Pick(s, p)) == multiset(Pick(s, q))
    decreases |p|
  {
    if p == [] {
      assert |q| == |multiset(q)| == 0;
    } else {
      var x := p[0];
      var j := FindIndex(q, x);
      var rest := q[..j] + q[j + 1..];
      PickAround(s, q, j);
      PickAround(s, p, 0);
      assert p[..0] + p[1..] == p[1..];
      RemoveAt(q, j);
      RemoveAt(p, 0);
      Cancel(multiset(p[1..]), multiset(rest), x);
      PickMultiset(s, p[1..], rest);
    }
  }

  /** `s` in the order given by the index permutation `perm`: the same
      elements, each as often as in `s`. */
  function Shuffled<T>(s: seq<T>, perm: seq<nat>): (r: seq<T>)
    requires IsIndexPerm(perm, |s|)
    ensures multiset(r) == multiset(s)
  {
    PickMultiset(s, perm, Range(|s|));
    assert Pick(s, Range(|s|)) == s by {
      forall i | 0 <= i < |s| ensures Pick(s, Range(|s|))[i] == s[i] {
        PickAt(s, Range(|s|), i);
      }
    }
    Pick(s, perm)
  }

  // ---------------------------------------------------------------------------
  // The two accessors
  // ---------------------------------------------------------------------------

  /** `q` passes the optional section filter. */
  predicate InSection(q: Question, section: Option<Section>) {
    section.None? || q.section == section.value
  }

  /** The entries a section filter admits, before shuffling. */
  function Available(bank: seq<Question>, section: Option<Section>): seq<Question> {
    match section
    case None => bank
    case Some(s) => Filter(bank, SectionOf, s)
  }

  /** `questions(for: section)`: the entries of the section, or the whole bank
      when there is no section, in the order `perm` chooses. */
  function QuestionsForSection(bank: seq<Question>, section: Option<Section>, perm: seq<nat>): (r: seq<Question>)
    requires IsIndexPerm(perm, |Available(bank, section)|)
    ensures |r| == |Available(bank, section)| <= |bank|
    ensures forall q :: q in r <==> q in bank && InSection(q, section)
    ensures forall q :: multiset(r)[q] == if InSection(q, section) then multiset(bank)[q] else 0
  {
    var r := Shuffled(Available(bank, section), perm);
    assert |r| == |multiset(r)|;
    assert forall q :: multiset(r)[q] == if InSection(q, section) then multiset(bank)[q] else 0 by {
      forall q ensures multiset(r)[q] == if InSection(q, section) then multiset(bank)[q] else 0 {
        if section.Some? {
          FilterMultiset(bank, SectionOf, section.value, q);
        }
      }
    }
    r
  }

  /** `questions(for: difficulty)`: the entries of the difficulty tier, in the
      order `perm` chooses. */
  function QuestionsForDifficulty(bank: seq<Question>, d: Difficulty, perm: seq<nat>): (r: seq<Question>)
    requires IsIndexPerm(perm, |Filter(bank, DifficultyOf, d)|)
    ensures |r| == |Filter(bank, DifficultyOf, d)| <= |bank|
    ensures forall q :: q in r <==> q in bank && q.difficulty == d
    ensures forall q :: multiset(r)[q] == if q.difficulty == d then multiset(bank)[q] else 0
  {
    var r := Shuffled(Filter(bank, DifficultyOf, d), perm);
    assert |r| == |multiset(r)|;
    assert forall q :: multiset(r)[q] == if q.difficulty == d then multiset(bank)[q] else 0 by {
      forall q ensures multiset(r)[q] == if q.difficulty == d then multiset(bank)[q] else 0 {
        FilterMultiset(bank, DifficultyOf, d, q);
      }
    }
    r
  }

  /** Two calls with the same filter return the same entries; only the order
      may differ. */
  lemma SectionDrawsAgree(bank: seq<Question>, section: Option<Section>, p1: seq<nat>, p2: seq<nat>)
    requires IsIndexPerm(p1, |Available(bank, section)|)
    requires IsIndexPerm(p2, |Available(bank, section)|)
    ensures multiset(QuestionsForSection(bank, section, p1)) == multiset(QuestionsForSection(bank, section, p2))
  {
    var r1, r2 := QuestionsForSection(bank, section, p1), QuestionsForSection(bank, section, p2);
    assert forall q :: multiset(r1)[q] == multiset(r2)[q];
  }
}
