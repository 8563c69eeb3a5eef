/**
 * Review exercises: a missed exercise rebuilt around the same concept and answer,
 * with different distractors, matching items or sentence, under an id shifted by
 * a million. When a builder cannot find what it needs it hands back the original.
 */
module ReviewGenerator {
  import opened Text
  import opened Seqs
  import opened Models
  import opened Random
  import opened RussianDictionary
  import opened Content
  import opened ExerciseGenerator

  /** Added to the id of a rebuilt exercise. */
  const IdOffset := 1000000

  /** `{...original, id: original.id + 1000000}` */
  function Shifted(e: Exercise): (r: Exercise)
    ensures r.id == e.id + IdOffset && r.(id := e.id) == e
  {
    e.(id := e.id + IdOffset)
  }

  /** JavaScript truthiness of an optional number: present and non-zero. */
  predicate TruthyId(x: Option<int>) {
    x.Some? && x.value != 0
  }

  /** Position of the first chapter with the id, or `|chapters|`. */
  function ChapterIdIndex(chapters: seq<Chapter>, chapterId: int): (i: nat)
    ensures i <= |chapters|
    ensures i < |chapters| ==> chapters[i].chapterId == chapterId
    ensures forall j :: 0 <= j < i ==> chapters[j].chapterId != chapterId
  {
    FirstIndex(chapters, (x: Chapter) => x.chapterId == chapterId)
  }

  /** `CHAPTERS.find(ch => ch.chapter_id === chapterId)` */
  function ChapterById(chapters: seq<Chapter>, chapterId: int): (r: Option<Chapter>)
    ensures r.Some? ==> r.value in chapters && r.value.chapterId == chapterId
    ensures r.None? <==> forall c :: c in chapters ==> c.chapterId != chapterId
  {
    var i := ChapterIdIndex(chapters, chapterId);
    if i < |chapters| then Some(chapters[i]) else None
  }

  /**
   * The lexemes a review draws from: the missed question's chapter's lexemes when
   * there are at least `minimum` of them, otherwise all lexemes.
   */
  function Candidates(t: Tables, mq: MissedQuestion, allLexemes: seq<Lexeme>, minimum: nat): (r: seq<Lexeme>)
    ensures ChapterLexemes(t, mq).Some? && |ChapterLexemes(t, mq).value| >= minimum ==> r == ChapterLexemes(t, mq).value
    ensures ChapterLexemes(t, mq).None? || |ChapterLexemes(t, mq).value| < minimum ==> r == allLexemes
    ensures r == allLexemes || |r| >= minimum
    ensures r != allLexemes ==> (
      && TruthyId(mq.chapterId) && ChapterById(t.chapters, mq.chapterId.value).Some?
      && LexemeIds(r) == Filter(ChapterById(t.chapters, mq.chapterId.value).value.associatedLexemes, KnownIn(t.lexemes)))
  {
    match ChapterLexemes(t, mq)
    case Some(fromChapter) => if |fromChapter| >= minimum then fromChapter else allLexemes
    case None => allLexemes
  }

  /** The known lexemes of the missed question's chapter, when it names one (a non-zero id) that exists. */
  function ChapterLexemes(t: Tables, mq: MissedQuestion): (r: Option<seq<Lexeme>>)
    ensures r.Some? <==> TruthyId(mq.chapterId) && ChapterById(t.chapters, mq.chapterId.value).Some?
    ensures r.Some? ==> r.value == LexemesByIds(t.lexemes, ChapterById(t.chapters, mq.chapterId.value).value.associatedLexemes)
  {
    if TruthyId(mq.chapterId) && ChapterById(t.chapters, mq.chapterId.value).Some? then
      Some(LexemesByIds(t.lexemes, ChapterById(t.chapters, mq.chapterId.value).value.associatedLexemes))
    else None
  }

  // ---------------------------------------------------------------------
  // Multiple choice.

  function EnglishIndex(ls: seq<Lexeme>, word: string): (i: nat)
    ensures i <= |ls|
    ensures i < |ls| ==> ls[i].englishTranslation == word
    ensures forall j :: 0 <= j < i ==> ls[j].englishTranslation != word
  {
    FirstIndex(ls, (x: Lexeme) => x.englishTranslation == word)
  }

  /** `allLexemes.find(l => l.english_translation === word)` */
  function LexemeByEnglish(ls: seq<Lexeme>, word: string): (r: Option<Lexeme>)
    ensures r.Some? ==> r.value in ls && r.value.englishTranslation == word
    ensures r.None? <==> forall l :: l in ls ==> l.englishTranslation != word
  {
    var i := EnglishIndex(ls, word);
    if i < |ls| then Some(ls[i]) else None
  }

  function NotAnswer(answer: string): string -> bool {
    (o: string) => o != answer
  }

  /** The original's options other than its answer. */
  function OriginalWrongAnswers(options: seq<string>, answer: string): (r: seq<string>)
    ensures forall o :: o in r <==> o in options && o != answer
  {
    Filter(options, NotAnswer(answer))
  }

  /** A candidate may become a new distractor: another lexeme whose translation was not already offered as wrong. */
  function FreshDistractor(correctId: int, originalWrong: seq<string>): Lexeme -> bool {
    (l: Lexeme) => l.lexemeId != correctId && l.englishTranslation !in originalWrong
  }

  /** Multiple choice can be rebuilt: it has options and an answer, and some lexeme translates to the answer. */
  predicate ChoiceRebuildable(original: Exercise, allLexemes: seq<Lexeme>) {
    original.options.Some? && original.correctAnswer != [] && LexemeByEnglish(allLexemes, original.correctAnswer).Some?
  }

  /**
   * A rebuilt multiple choice: the original under the shifted id, its options the answer
   * and the translations of `wrong`, up to three lexemes drawn from distinct positions of
   * the pool of candidates that are not the answer and were not offered before.
   */
  predicate ChoiceRebuilt(t: Tables, original: Exercise, mq: MissedQuestion, allLexemes: seq<Lexeme>,
                          e: Exercise, wrong: seq<Lexeme>)
    requires ChoiceRebuildable(original, allLexemes)
  {
    var correct := LexemeByEnglish(allLexemes, original.correctAnswer).value;
    var originalWrong := OriginalWrongAnswers(original.options.value, original.correctAnswer);
    var pool := Filter(Candidates(t, mq, allLexemes, 4), FreshDistractor(correct.lexemeId, originalWrong));
    && e.(options := original.options) == Shifted(original)
    && e.options.Some? && multiset(e.options.value) == multiset([original.correctAnswer] + EnglishWords(wrong))
    && |wrong| == Min(3, |pool|)
    && multiset(wrong) <= multiset(pool)
    && (forall l :: l in wrong ==> l in Candidates(t, mq, allLexemes, 4) && l.lexemeId != correct.lexemeId)
    && (forall w :: w in EnglishWords(wrong) ==> w !in originalWrong)
  }

  /** `generateReviewMultipleChoice(original, missedQuestion, allLexemes)` */
  method ReviewMultipleChoice(t: Tables, original: Exercise, mq: MissedQuestion, allLexemes: seq<Lexeme>, rng: RandomSource)
    returns (e: Exercise, ghost wrong: seq<Lexeme>)
    modifies rng
    ensures !ChoiceRebuildable(original, allLexemes) ==> e == original
    ensures ChoiceRebuildable(original, allLexemes) ==> ChoiceRebuilt(t, original, mq, allLexemes, e, wrong)
    ensures e.correctAnswer == original.correctAnswer && e.kind == original.kind
    ensures e.options.Some? ==> original.correctAnswer in e.options.value || e == original
  {
    wrong := [];
    if original.options.None? || original.correctAnswer == [] {
      return original, wrong;
    }
    var found := LexemeByEnglish(allLexemes, original.correctAnswer);
    if found.None? {
      return original, wrong;
    }
    var correct := found.value;
    var candidates := Candidates(t, mq, allLexemes, 4);
    var originalWrong := OriginalWrongAnswers(original.options.value, original.correctAnswer);
    var pool := Filter(candidates, FreshDistractor(correct.lexemeId, originalWrong));
    var chosen := RandomItems(pool, 3, rng);
    SubMultisetMembership(chosen, pool);
    var answers := [original.correctAnswer] + EnglishWords(chosen);
    var options := Shuffle(answers, rng);
    assert original.correctAnswer in multiset(answers);
    e := Shifted(original).(options := Some(options));
    wrong := chosen;
  }

  // ---------------------------------------------------------------------
  // Matching.

  /** The ids of candidates whose word appears in the original left column. */
  function OriginalIds(candidates: seq<Lexeme>, left: seq<string>): set<int> {
    set l | l in candidates && l.russianWord in left :: l.lexemeId
  }

  function OutsideIds(ids: set<int>): Lexeme -> bool {
    (l: Lexeme) => l.lexemeId !in ids
  }

  function InsideIds(ids: set<int>): Lexeme -> bool {
    (l: Lexeme) => l.lexemeId in ids
  }

  predicate MatchingRebuildable(original: Exercise) {
    original.leftColumnItems.Some? && original.rightColumnItems.Some? && original.correctPairs.Some?
  }

  /**
   * Up to five lexemes that were not in the original, topped up with lexemes that
   * were when there are fewer than five of the former.
   */
  method SelectForReview(candidates: seq<Lexeme>, ids: set<int>, rng: RandomSource)
    returns (selected: seq<Lexeme>, ghost newLexemes: seq<Lexeme>, ghost reused: seq<Lexeme>)
    modifies rng
    ensures selected == newLexemes + reused
    ensures forall l :: l in newLexemes ==> l in candidates && l.lexemeId !in ids
    ensures forall l :: l in reused ==> l in candidates && l.lexemeId in ids
    ensures |newLexemes| == Min(5, |Filter(candidates, OutsideIds(ids))|)
    ensures |reused| == Min(5 - |newLexemes|, |Filter(candidates, InsideIds(ids))|)
    ensures |selected| == Min(5, |candidates|)
  {
    FilterPartitionLength(candidates, OutsideIds(ids), InsideIds(ids));
    var available := Filter(candidates, OutsideIds(ids));
    selected := RandomItems(available, Min(5, |available|), rng);
    SubMultisetMembership(selected, available);
    newLexemes, reused := selected, [];
    var originals := Filter(candidates, InsideIds(ids));
    if |selected| < 5 {
      var additional := RandomItems(originals, 5 - |selected|, rng);
      SubMultisetMembership(additional, originals);
      reused := additional;
      selected := selected + additional;
    }
  }

  /** The three columns of a matching exercise over the selected lexemes, the right one shuffled. */
  method MatchingColumns(selected: seq<Lexeme>, rng: RandomSource)
    returns (left: seq<string>, right: seq<string>, pairs: map<string, string>)
    modifies rng
    ensures left == RussianWords(selected)
    ensures multiset(right) == multiset(EnglishWords(selected))
    ensures pairs == PairsMap(selected)
  {
    left := RussianWords(selected);
    right := Shuffle(EnglishWords(selected), rng);
    pairs := map[];
    for i := 0 to |selected|
      invariant pairs == PairsMap(selected[..i])
    {
      assert selected[..i + 1][..i] == selected[..i];
      pairs := pairs[selected[i].russianWord := selected[i].englishTranslation];
    }
    assert selected[..|selected|] == selected;
  }

  /**
   * A rebuilt matching: the original under the shifted id, its columns and pairs built
   * from up to five candidates not in the original (`newLexemes`), topped up with ones
   * that were (`reused`) when there are fewer than five of the former.
   */
  predicate MatchingRebuilt(t: Tables, original: Exercise, mq: MissedQuestion, allLexemes: seq<Lexeme>,
                            e: Exercise, newLexemes: seq<Lexeme>, reused: seq<Lexeme>)
    requires MatchingRebuildable(original)
  {
    var candidates := Candidates(t, mq, allLexemes, 5);
    var ids := OriginalIds(candidates, original.leftColumnItems.value);
    var selected := newLexemes + reused;
    && (forall l :: l in newLexemes ==> l in candidates && l.lexemeId !in ids)
    && (forall l :: l in reused ==> l in candidates && l.lexemeId in ids)
    && |newLexemes| == Min(5, |Filter(candidates, OutsideIds(ids))|)
    && |reused| == Min(5 - |newLexemes|, |Filter(candidates, InsideIds(ids))|)
    && |selected| == Min(5, |candidates|)
    && e.(leftColumnItems := original.leftColumnItems, rightColumnItems := original.rightColumnItems,
          correctPairs := original.correctPairs) == Shifted(original)
    && e.leftColumnItems == Some(RussianWords(selected))
    && e.rightColumnItems.Some? && multiset(e.rightColumnItems.value) == multiset(EnglishWords(selected))
    && e.correctPairs == Some(PairsMap(selected))
  }

  /**
   * `generateReviewMatching(original, missedQuestion, allLexemes)`: up to five
   * lexemes not in the original, topped up with original ones when short.
   */
  method ReviewMatching(t: Tables, original: Exercise, mq: MissedQuestion, allLexemes: seq<Lexeme>, rng: RandomSource)
    returns (e: Exercise, ghost newLexemes: seq<Lexeme>, ghost reused: seq<Lexeme>)
    modifies rng
    ensures !MatchingRebuildable(original) ==> e == original
    ensures MatchingRebuildable(original) ==> MatchingRebuilt(t, original, mq, allLexemes, e, newLexemes, reused)
  {
    newLexemes, reused := [], [];
    if !MatchingRebuildable(original) {
      return original, newLexemes, reused;
    }
    var candidates := Candidates(t, mq, allLexemes, 5);
    var ids := OriginalIds(candidates, original.leftColumnItems.value);
    var selected;
    selected, newLexemes, reused := SelectForReview(candidates, ids, rng);
    var left, right, pairs := MatchingColumns(selected, rng);
    e := Shifted(original).(leftColumnItems := Some(left), rightColumnItems := Some(right), correctPairs := Some(pairs));
  }

  // ---------------------------------------------------------------------
  // Fill in the blank.

  /** `l.russian_word === answer || l.russian_word.toLowerCase() === answer.toLowerCase()` */
  predicate SameWord(l: Lexeme, answer: string) {
    l.russianWord == answer || Lower(l.russianWord) == Lower(answer)
  }

  function SameWordIndex(ls: seq<Lexeme>, answer: string): (i: nat)
    ensures i <= |ls|
    ensures i < |ls| ==> SameWord(ls[i], answer)
    ensures forall j :: 0 <= j < i ==> !SameWord(ls[j], answer)
  {
    FirstIndex(ls, (x: Lexeme) => SameWord(x, answer))
  }

  /** The first lexeme whose word is the answer, compared exactly or lower-cased. */
  function LexemeForAnswer(ls: seq<Lexeme>, answer: string): (r: Option<Lexeme>)
    ensures r.Some? ==> r.value in ls && Lower(r.value.russianWord) == Lower(answer)
    ensures r.None? <==> forall l :: l in ls ==> Lower(l.russianWord) != Lower(answer)
  {
    var i := SameWordIndex(ls, answer);
    if i < |ls| then Some(ls[i]) else None
  }

  function RuleIndex(rules: seq<GrammarRule>, ruleId: int): (i: nat)
    ensures i <= |rules|
    ensures i < |rules| ==> rules[i].ruleId == ruleId
    ensures forall j :: 0 <= j < i ==> rules[j].ruleId != ruleId
  {
    FirstIndex(rules, (x: GrammarRule) => x.ruleId == ruleId)
  }

  /** The missed question's rule, when it names one (a non-zero id) that exists. */
  function MissedRule(rules: seq<GrammarRule>, mq: MissedQuestion): (r: Option<GrammarRule>)
    ensures r.Some? ==> r.value in rules && mq.grammarRuleId == Some(r.value.ruleId) && r.value.ruleId != 0
    ensures r.None? ==> !TruthyId(mq.grammarRuleId) || forall g :: g in rules ==> g.ruleId != mq.grammarRuleId.value
  {
    if !TruthyId(mq.grammarRuleId) then None
    else
      var i := RuleIndex(rules, mq.grammarRuleId.value);
      if i < |rules| then Some(rules[i]) else None
  }

  /** Prepositional or genitive when the rule's name says so, accusative otherwise. */
  function ReviewCase(rule: Option<GrammarRule>): (c: Case)
    ensures c == Prepositional <==> rule.Some? && Contains(Lower(rule.value.ruleName), "prepositional")
    ensures c == GenitiveCase <==>
      rule.Some? && !Contains(Lower(rule.value.ruleName), "prepositional") && Contains(Lower(rule.value.ruleName), "genitive")
    ensures c == Accusative || c == Prepositional || c == GenitiveCase
  {
    if rule.Some? && Contains(Lower(rule.value.ruleName), "prepositional") then Prepositional
    else if rule.Some? && Contains(Lower(rule.value.ruleName), "genitive") then GenitiveCase
    else Accusative
  }

  function ReviewTemplates(): seq<SentenceParts> {
    [ SentenceParts("Я читаю", "(I read ___)"),
      SentenceParts("Я смотрю", "(I watch ___)"),
      SentenceParts("Я люблю", "(I love ___)"),
      SentenceParts("Я живу в", "(I live in ___)"),
      SentenceParts("Мы в", "(We are in ___)") ]
  }

  function OtherOpening(part1: string): SentenceParts -> bool {
    (s: SentenceParts) => s.part1 != part1
  }

  /** At most one review template is dropped, so four or more remain to choose from. */
  lemma {:induction false} OtherTemplatesRemain(part1: string)
    ensures |Filter(ReviewTemplates(), OtherOpening(part1))| >= 4
  {
    var ts := ReviewTemplates();
    NoDupTemplates();
    var kept := Filter(ts, OtherOpening(part1));
    if exists k :: 0 <= k < |ts| && ts[k].part1 == part1 {
      var k :| 0 <= k < |ts| && ts[k].part1 == part1;
      FilterDropsOnlyOne(ts, part1, k);
    } else {
      FilterKeepsAll(ts, OtherOpening(part1));
    }
  }

  lemma NoDupTemplates()
    ensures forall i, j :: 0 <= i < j < |ReviewTemplates()| ==> ReviewTemplates()[i].part1 != ReviewTemplates()[j].part1
  {
  }

  /** Dropping the entries with one opening from a list of distinct openings loses at most one entry. */
  lemma {:induction false} FilterDropsOnlyOne(ts: seq<SentenceParts>, part1: string, k: nat)
    requires k < |ts| && ts[k].part1 == part1
    requires forall i, j :: 0 <= i < j < |ts| ==> ts[i].part1 != ts[j].part1
    ensures |Filter(ts, OtherOpening(part1))| == |ts| - 1
    decreases |ts|
  {
    if k == 0 {
      forall s | s in ts[1..] ensures OtherOpening(part1)(s) {
        var j :| 0 <= j < |ts[1..]| && ts[1..][j] == s;
        assert ts[j + 1] == s;
      }
      FilterKeepsAll(ts[1..], OtherOpening(part1));
    } else {
      assert ts[0].part1 != ts[k].part1;
      FilterDropsOnlyOne(ts[1..], part1, k - 1);
    }
  }

  /** Fill in the blank can be rebuilt: it has an answer and a non-empty first part, and the answer is a known word. */
  predicate FillRebuildable(original: Exercise, allLexemes: seq<Lexeme>) {
    original.correctAnswer != [] && original.sentencePart1.Some? && original.sentencePart1.value != []
    && LexemeForAnswer(allLexemes, original.correctAnswer).Some?
  }

  /**
   * `generateReviewFillInBlank(original, missedQuestion, allLexemes, allGrammarRules)`,
   * `pick` standing for the template draw.
   */
  /** The review template a draw selects among those whose opening differs from `part1`. */
  function PickReviewTemplate(part1: string, pick: nat): (s: SentenceParts)
    ensures s in ReviewTemplates() && s.part1 != part1
  {
    var available := Filter(ReviewTemplates(), OtherOpening(part1));
    OtherTemplatesRemain(part1);
    available[pick % |available|]
  }

  function ReviewFillInBlank(original: Exercise, mq: MissedQuestion, allLexemes: seq<Lexeme>, allRules: seq<GrammarRule>,
                             pick: nat): (e: Exercise)
    ensures !FillRebuildable(original, allLexemes) ==> e == original
    ensures FillRebuildable(original, allLexemes) ==>
      var l := LexemeForAnswer(allLexemes, original.correctAnswer).value;
      && e.correctAnswer == GetCaseForm(l.russianWord, ReviewCase(MissedRule(allRules, mq)), l.gender)
      && e.(sentencePart1 := original.sentencePart1, sentencePart2 := original.sentencePart2,
            correctAnswer := original.correctAnswer) == Shifted(original)
      && e.sentencePart1 != original.sentencePart1
      && exists s :: s in ReviewTemplates() && e.sentencePart1 == Some(s.part1) && e.sentencePart2 == Some(s.part2)
  {
    if !FillRebuildable(original, allLexemes) then original
    else
      var l := LexemeForAnswer(allLexemes, original.correctAnswer).value;
      var c := ReviewCase(MissedRule(allRules, mq));
      var answer := GetCaseForm(l.russianWord, c, l.gender);
      var s := PickReviewTemplate(original.sentencePart1.value, pick);
      Shifted(original).(sentencePart1 := Some(s.part1), sentencePart2 := Some(s.part2), correctAnswer := answer)
  }

  // ---------------------------------------------------------------------
  // Dispatch.

  /** `generateReviewExercise(originalExercise, missedQuestion, allLexemes, allGrammarRules)` */
  method ReviewExercise(t: Tables, original: Exercise, mq: MissedQuestion, allLexemes: seq<Lexeme>, allRules: seq<GrammarRule>,
                        rng: RandomSource) returns (e: Exercise)
    modifies rng
    ensures original.kind != MULTIPLE_CHOICE && original.kind != MATCHING && original.kind != FILL_IN_BLANK ==>
      e == Shifted(original)
    ensures e.kind == original.kind
    ensures e.id == original.id || e.id == original.id + IdOffset
    ensures original.kind == MULTIPLE_CHOICE ==>
      e.correctAnswer == original.correctAnswer && (!ChoiceRebuildable(original, allLexemes) ==> e == original)
    ensures original.kind == MULTIPLE_CHOICE && ChoiceRebuildable(original, allLexemes) ==>
      exists wrong :: ChoiceRebuilt(t, original, mq, allLexemes, e, wrong)
    ensures original.kind == MATCHING && !MatchingRebuildable(original) ==> e == original
    ensures original.kind == MATCHING && MatchingRebuildable(original) ==>
      exists newLexemes, reused :: MatchingRebuilt(t, original, mq, allLexemes, e, newLexemes, reused)
    ensures original.kind == FILL_IN_BLANK ==> exists pick: nat :: e == ReviewFillInBlank(original, mq, allLexemes, allRules, pick)
  {
    match original.kind
    case MULTIPLE_CHOICE =>
      ghost var wrong;
      e, wrong := ReviewMultipleChoice(t, original, mq, allLexemes, rng);
    case MATCHING =>
      ghost var newLexemes, reused;
      e, newLexemes, reused := ReviewMatching(t, original, mq, allLexemes, rng);
    case FILL_IN_BLANK =>
      var pick := rng.Next();
      e := ReviewFillInBlank(original, mq, allLexemes, allRules, pick);
    case _ =>
      e := Shifted(original);
  }
}
