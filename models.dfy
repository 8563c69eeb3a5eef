/**
 * The application's data model: vocabulary entries (lexemes), grammar rules, the
 * curriculum (modules, chapters, sections), vocabulary packs, exercises and the
 * learner's progress record. Optional fields are `Option`s; the free-text fields
 * that no operation of the exercise engine reads (explanations, icons,
 * descriptions, titles in Russian) are not carried.
 */
module Models {

  datatype Option<T> = None | Some(value: T)

  datatype PartOfSpeech = NOUN | VERB | ADJECTIVE | PHRASE | ADVERB | PREPOSITION | PRONOUN

  datatype Gender = MASCULINE | FEMININE | NEUTER

  datatype ConjugationType = FIRST | SECOND | IRREGULAR

  datatype ExerciseType = MATCHING | FILL_IN_BLANK | LISTEN_TYPE | SOUND_RECOGNITION | MULTIPLE_CHOICE | ALPHABET_QUIZ

  datatype SectionType = GRAMMAR | VOCABULARY | SPELLING | LISTENING | MIXED_REVIEW | LETTER_LEARNING

  /** A vocabulary word with the compatibility metadata sentence generation uses. */
  datatype Lexeme = Lexeme(
    lexemeId: int,
    russianWord: string,
    englishTranslation: string,
    partOfSpeech: PartOfSpeech,
    gender: Option<Gender>,
    conjugation: Option<ConjugationType>,
    audioFilePath: Option<string>,
    semanticTheme: Option<string>,
    compatibleThemes: Option<seq<string>>,
    compatibleVerbIds: Option<seq<int>>,
    compatibleNounIds: Option<seq<int>>)

  datatype GrammarRule = GrammarRule(ruleId: int, ruleName: string, unlocksInModule: int)

  datatype Section = Section(
    sectionId: int,
    sectionName: string,
    sectionType: SectionType,
    associatedLexemes: seq<int>,
    associatedGrammar: seq<int>,
    order: int)

  datatype CurriculumModule = CurriculumModule(
    moduleId: int,
    moduleNumber: int,
    titleEnglish: string,
    associatedLexemes: seq<int>,
    associatedGrammar: seq<int>,
    sections: seq<Section>)

  datatype Chapter = Chapter(
    chapterId: int,
    chapterNumber: int,
    titleEnglish: string,
    associatedLexemes: seq<int>,
    associatedGrammar: seq<int>,
    sections: seq<Section>)

  datatype VocabPack = VocabPack(
    packId: int,
    packName: string,
    associatedLexemes: seq<int>,
    prerequisiteModule: int,
    theme: Option<string>)

  /** One exercise as the lesson screens consume it; fields a kind does not use stay `None`. */
  datatype Exercise = Exercise(
    id: int,
    kind: ExerciseType,
    chapterId: Option<int>,
    sectionId: Option<int>,
    prompt: Option<string>,
    options: Option<seq<string>>,
    correctAnswer: string,
    conceptId: Option<string>,
    audioToPlay: Option<string>,
    leftColumnItems: Option<seq<string>>,
    rightColumnItems: Option<seq<string>>,
    correctPairs: Option<map<string, string>>,
    sentencePart1: Option<string>,
    sentencePart2: Option<string>,
    lexemeIds: Option<seq<int>>,
    grammarRuleIds: Option<seq<int>>)

  /** An exercise of the given kind with every optional field absent. */
  function BareExercise(id: int, kind: ExerciseType, correctAnswer: string): (e: Exercise)
    ensures e.id == id && e.kind == kind && e.correctAnswer == correctAnswer
    ensures e.options.None? && e.correctPairs.None? && e.sentencePart1.None? && e.lexemeIds.None?
  {
    Exercise(id, kind, None, None, None, None, correctAnswer, None, None, None, None, None, None, None, None, None)
  }

  datatype ConceptType = Vocab | Grammar | Spelling | Listening

  datatype MissedQuestion = MissedQuestion(
    exerciseId: int,
    chapterId: Option<int>,
    sectionId: Option<int>,
    conceptType: Option<ConceptType>,
    grammarRuleId: Option<int>,
    lexemeIds: Option<seq<int>>,
    originalExercise: Exercise,
    timestamp: string)

  datatype UserProgress = UserProgress(
    userId: int,
    currentModule: int,
    currentChapter: int,
    streakCount: int,
    missedQuestions: seq<MissedQuestion>,
    activeVocabPacks: seq<int>,
    module0Complete: bool,
    completedSections: seq<int>,
    lastActivityDate: Option<string>)

  function LexemeIds(ls: seq<Lexeme>): (ids: seq<int>)
    ensures |ids| == |ls|
    ensures forall i :: 0 <= i < |ls| ==> ids[i] == ls[i].lexemeId
  {
    seq(|ls|, i requires 0 <= i < |ls| => ls[i].lexemeId)
  }

  function RussianWords(ls: seq<Lexeme>): (ws: seq<string>)
    ensures |ws| == |ls|
    ensures forall i :: 0 <= i < |ls| ==> ws[i] == ls[i].russianWord
  {
    seq(|ls|, i requires 0 <= i < |ls| => ls[i].russianWord)
  }

  function EnglishWords(ls: seq<Lexeme>): (ws: seq<string>)
    ensures |ws| == |ls|
    ensures forall i :: 0 <= i < |ls| ==> ws[i] == ls[i].englishTranslation
  {
    seq(|ls|, i requires 0 <= i < |ls| => ls[i].englishTranslation)
  }

  function RuleIds(rs: seq<GrammarRule>): (ids: seq<int>)
    ensures |ids| == |rs|
    ensures forall i :: 0 <= i < |rs| ==> ids[i] == rs[i].ruleId
  {
    seq(|rs|, i requires 0 <= i < |rs| => rs[i].ruleId)
  }
}
