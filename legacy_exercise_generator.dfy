/**
 * The earlier exercise generator: one module's lexemes (with the active packs'),
 * a quick session of matching and fill-in-the-blank exercises or a deep session
 * cycling through all four kinds, numbered from `1000 + 100 * module` and shuffled.
 */
module LegacyExerciseGenerator {
  import opened Models
  import opened Seqs
  import opened Random
  import opened LegacyContent
  import opened ExerciseGenerator

  /** The part of speech as the tables spell it, used in concept ids. */
  function PartOfSpeechName(p: PartOfSpeech): string {
    match p
    case NOUN => "NOUN"
    case VERB => "VERB"
    case ADJECTIVE => "ADJECTIVE"
    case PHRASE => "PHRASE"
    case ADVERB => "ADVERB"
    case PREPOSITION => "PREPOSITION"
    case PRONOUN => "PRONOUN"
  }

  const PlaceholderAudio := "/audio/placeholder.mp3"

  /** `generateMultipleChoice(lexemes, exerciseId)`: any lexeme's meaning among up to three other lexemes' meanings. */
  method LegacyMultipleChoice(lexemes: seq<Lexeme>, id: int, rng: RandomSource)
    returns (e: Exercise, ghost correct: Lexeme, ghost wrong: seq<Lexeme>)
    requires |lexemes| > 0
    modifies rng
    ensures e.id == id && e.kind == MULTIPLE_CHOICE && correct in lexemes
    ensures e.prompt == Some("What does \"" + correct.russianWord + "\" mean?")
    ensures e.correctAnswer == correct.englishTranslation && e.audioToPlay == correct.audioFilePath
    ensures e.conceptId == Some("vocab_" + PartOfSpeechName(correct.partOfSpeech))
    ensures |wrong| == Min(3, |Filter(lexemes, OtherId(correct.lexemeId))|)
    ensures multiset(wrong) <= multiset(Filter(lexemes, OtherId(correct.lexemeId)))
    ensures forall l :: l in wrong ==> l in lexemes && l.lexemeId != correct.lexemeId
    ensures e.options.Some? && multiset(e.options.value) == multiset([correct.englishTranslation] + EnglishWords(wrong))
    ensures e.correctAnswer in e.options.value && 1 <= |e.options.value| <= 4
  {
    var k := rng.Below(|lexemes|);
    var target := lexemes[k];
    var others := Filter(lexemes, OtherId(target.lexemeId));
    var wrongLexemes := RandomItems(others, 3, rng);
    SubMultisetMembership(wrongLexemes, others);
    var answers := [target.englishTranslation] + EnglishWords(wrongLexemes);
    var options := Shuffle(answers, rng);
    assert target.englishTranslation in multiset(answers);
    e := BareExercise(id, MULTIPLE_CHOICE, target.englishTranslation).(
      prompt := Some("What does \"" + target.russianWord + "\" mean?"),
      options := Some(options),
      audioToPlay := target.audioFilePath,
      conceptId := Some("vocab_" + PartOfSpeechName(target.partOfSpeech)));
    correct, wrong := target, wrongLexemes;
  }

  /** `generateMatching(lexemes, exerciseId)`: up to five lexemes, their words left, their translations shuffled right. */
  method LegacyMatching(lexemes: seq<Lexeme>, id: int, rng: RandomSource) returns (e: Exercise, ghost selected: seq<Lexeme>)
    modifies rng
    ensures e.id == id && e.kind == MATCHING && e.conceptId == Some("matching_vocabulary")
    ensures |selected| == Min(5, |lexemes|) && multiset(selected) <= multiset(lexemes)
    ensures e.leftColumnItems == Some(RussianWords(selected))
    ensures e.rightColumnItems.Some? && multiset(e.rightColumnItems.value) == multiset(EnglishWords(selected))
    ensures e.correctPairs == Some(PairsMap(selected))
    ensures e.correctPairs.value.Keys == set w | w in e.leftColumnItems.value
  {
    var chosen := RandomItems(lexemes, 5, rng);
    var left := RussianWords(chosen);
    var right := Shuffle(EnglishWords(chosen), rng);
    var pairs: map<string, string> := map[];
    for i := 0 to |chosen|
      invariant pairs == PairsMap(chosen[..i])
    {
      assert chosen[..i + 1][..i] == chosen[..i];
      pairs := pairs[chosen[i].russianWord := chosen[i].englishTranslation];
    }
    assert chosen[..|chosen|] == chosen;
    PairsMapContents(chosen);
    assert (set l | l in chosen :: l.russianWord) == set w | w in left by {
      forall w | w in left ensures w in set l | l in chosen :: l.russianWord {
        var k :| 0 <= k < |left| && left[k] == w;
        assert chosen[k] in chosen;
      }
    }
    e := BareExercise(id, MATCHING, []).(
      leftColumnItems := Some(left),
      rightColumnItems := Some(right),
      correctPairs := Some(pairs),
      conceptId := Some("matching_vocabulary"));
    selected := chosen;
  }

  /** The opening of the sentence for a word: "Это" for a noun, "Я хочу" for a verb, nothing otherwise. */
  function Opening(p: PartOfSpeech): string {
    if p == NOUN then "Это" else if p == VERB then "Я хочу" else ""
  }

  /** The English hint after the blank. */
  function Hint(l: Lexeme): string {
    if l.partOfSpeech == NOUN then "(This is a " + l.englishTranslation + ")"
    else if l.partOfSpeech == VERB then "(I want to " + l.englishTranslation + ")"
    else "means \"" + l.englishTranslation + "\""
  }

  /** `generateFillInBlank(lexemes, exerciseId)`, `pick` standing for the lexeme draw: the word itself is the answer. */
  function LegacyFillInBlank(lexemes: seq<Lexeme>, id: int, pick: nat): (e: Exercise)
    requires |lexemes| > 0
    ensures e.id == id && e.kind == FILL_IN_BLANK
    ensures exists l :: (l in lexemes && e.correctAnswer == l.russianWord
      && e.sentencePart1 == Some(Opening(l.partOfSpeech)) && e.sentencePart2 == Some(Hint(l))
      && e.conceptId == Some("spelling_" + PartOfSpeechName(l.partOfSpeech)))
  {
    var l := lexemes[pick % |lexemes|];
    BareExercise(id, FILL_IN_BLANK, l.russianWord).(
      sentencePart1 := Some(Opening(l.partOfSpeech)),
      sentencePart2 := Some(Hint(l)),
      conceptId := Some("spelling_" + PartOfSpeechName(l.partOfSpeech)))
  }

  /** `path || '/audio/placeholder.mp3'`: an absent or empty path falls back to the placeholder. */
  function AudioOrPlaceholder(path: Option<string>): (r: string)
    ensures r != []
    ensures path.Some? && path.value != [] ==> r == path.value
  {
    if path.Some? && path.value != [] then path.value else PlaceholderAudio
  }

  /** `generateListenType(lexemes, exerciseId)`, `pick` standing for the lexeme draw. */
  function LegacyListenType(lexemes: seq<Lexeme>, id: int, pick: nat): (e: Exercise)
    requires |lexemes| > 0
    ensures e.id == id && e.kind == LISTEN_TYPE
    ensures exists l :: (l in lexemes && e.correctAnswer == l.russianWord
      && e.audioToPlay == Some(AudioOrPlaceholder(l.audioFilePath))
      && e.conceptId == Some("listening_" + PartOfSpeechName(l.partOfSpeech)))
  {
    var l := lexemes[pick % |lexemes|];
    BareExercise(id, LISTEN_TYPE, l.russianWord).(
      audioToPlay := Some(AudioOrPlaceholder(l.audioFilePath)),
      conceptId := Some("listening_" + PartOfSpeechName(l.partOfSpeech)))
  }

  /** What an earlier exercise needs to be answerable; listening needs something to play. */
  predicate LegacyAnswerable(e: Exercise) {
    match e.kind
    case MULTIPLE_CHOICE => e.options.Some? && e.correctAnswer in e.options.value
    case MATCHING =>
      e.leftColumnItems.Some? && e.correctPairs.Some? && e.correctPairs.value.Keys == set w | w in e.leftColumnItems.value
    case FILL_IN_BLANK => e.sentencePart1.Some? && e.sentencePart2.Some?
    case LISTEN_TYPE => e.audioToPlay.Some? && e.audioToPlay.value != []
    case _ => false
  }

  /** The kind a deep round `i` produces for `n` lexemes: the four kinds in turn, multiple choice only from four lexemes, matching from five. */
  function DeepKind(i: nat, n: nat): (k: Option<ExerciseType>)
    ensures k == Some(MULTIPLE_CHOICE) <==> i % 4 == 0 && n >= 4
    ensures k == Some(MATCHING) <==> i % 4 == 1 && n >= 5
    ensures k.None? <==> (i % 4 == 0 && n < 4) || (i % 4 == 1 && n < 5)
  {
    if i % 4 == 0 then (if n >= 4 then Some(MULTIPLE_CHOICE) else None)
    else if i % 4 == 1 then (if n >= 5 then Some(MATCHING) else None)
    else if i % 4 == 2 then Some(FILL_IN_BLANK)
    else Some(LISTEN_TYPE)
  }

  /** The kinds the first `count` deep rounds build, in order. */
  function DeepKinds(count: nat, n: nat): seq<ExerciseType>
    decreases count
  {
    if count == 0 then []
    else
      DeepKinds(count - 1, n)
        + match DeepKind(count - 1, n)
          case Some(k) => [k]
          case None => []
  }

  /** At most one exercise per round, exactly one from five lexemes; too few lexemes rule out multiple choice and matching. */
  lemma {:induction false} DeepKindsShape(count: nat, n: nat)
    ensures |DeepKinds(count, n)| <= count
    ensures n >= 5 ==> |DeepKinds(count, n)| == count
    ensures n < 4 ==> MULTIPLE_CHOICE !in DeepKinds(count, n)
    ensures n < 5 ==> MATCHING !in DeepKinds(count, n)
    ensures FILL_IN_BLANK in DeepKinds(count, n) <==> count >= 3
    decreases count
  {
    if count > 0 {
      DeepKindsShape(count - 1, n);
      if count == 3 {
        assert DeepKind(2, n) == Some(FILL_IN_BLANK);
      }
    }
  }

  /** The exercises are numbered `start`, `start + 1`, … in the order they were built. */
  predicate NumberedFrom(es: seq<Exercise>, start: int) {
    forall k :: 0 <= k < |es| ==> es[k].id == start + k
  }

  /** The quick-session loop: a coin per round picks matching (with five or more lexemes) or fill in the blank. */
  method QuickBatch(lexemes: seq<Lexeme>, rounds: nat, start: int, rng: RandomSource) returns (exercises: seq<Exercise>)
    requires |lexemes| > 0
    modifies rng
    ensures |exercises| == rounds && NumberedFrom(exercises, start)
    ensures forall e :: e in exercises ==> (e.kind == MATCHING || e.kind == FILL_IN_BLANK) && LegacyAnswerable(e)
    ensures |lexemes| < 5 ==> forall e :: e in exercises ==> e.kind == FILL_IN_BLANK
  {
    exercises := [];
    for i := 0 to rounds
      invariant |exercises| == i && NumberedFrom(exercises, start)
      invariant forall e :: e in exercises ==> (e.kind == MATCHING || e.kind == FILL_IN_BLANK) && LegacyAnswerable(e)
      invariant |lexemes| < 5 ==> forall e :: e in exercises ==> e.kind == FILL_IN_BLANK
    {
      var matching := rng.Chance();
      var e;
      if matching && |lexemes| >= 5 {
        ghost var selected;
        e, selected := LegacyMatching(lexemes, start + i, rng);
      } else {
        var pick := rng.Next();
        e := LegacyFillInBlank(lexemes, start + i, pick);
      }
      exercises := exercises + [e];
    }
  }

  /** Builds deep round `i`'s exercise, or nothing when it is skipped. */
  method DeepRound(lexemes: seq<Lexeme>, i: nat, id: int, rng: RandomSource) returns (e: Option<Exercise>)
    requires |lexemes| > 0
    modifies rng
    ensures e.None? <==> DeepKind(i, |lexemes|).None?
    ensures e.Some? ==> e.value.kind == DeepKind(i, |lexemes|).value && e.value.id == id && LegacyAnswerable(e.value)
  {
    if i % 4 == 0 {
      if |lexemes| >= 4 {
        var x;
        ghost var correct, wrong;
        x, correct, wrong := LegacyMultipleChoice(lexemes, id, rng);
        e := Some(x);
      } else {
        e := None;
      }
    } else if i % 4 == 1 {
      if |lexemes| >= 5 {
        var x;
        ghost var selected;
        x, selected := LegacyMatching(lexemes, id, rng);
        e := Some(x);
      } else {
        e := None;
      }
    } else if i % 4 == 2 {
      var pick := rng.Next();
      e := Some(LegacyFillInBlank(lexemes, id, pick));
    } else {
      var pick := rng.Next();
      e := Some(LegacyListenType(lexemes, id, pick));
    }
  }

  /** The deep-session loop: round `i` builds the kind `i mod 4` names, numbered by the exercises already built. */
  method DeepBatch(lexemes: seq<Lexeme>, rounds: nat, start: int, rng: RandomSource) returns (exercises: seq<Exercise>)
    requires |lexemes| > 0
    modifies rng
    ensures Kinds(exercises) == DeepKinds(rounds, |lexemes|) && NumberedFrom(exercises, start)
    ensures forall e :: e in exercises ==> LegacyAnswerable(e)
  {
    exercises := [];
    for i := 0 to rounds
      invariant Kinds(exercises) == DeepKinds(i, |lexemes|) && NumberedFrom(exercises, start)
      invariant forall e :: e in exercises ==> LegacyAnswerable(e)
    {
      var made := DeepRound(lexemes, i, start + |exercises|, rng);
      if made.Some? {
        assert Kinds(exercises + [made.value]) == Kinds(exercises) + [made.value.kind];
        exercises := exercises + [made.value];
      }
    }
  }

  /** The first id of a module's batch. */
  function LegacyStartId(moduleNumber: int): int {
    1000 + moduleNumber * 100
  }

  /**
   * `generateExercises(module, mode, activePackIds)`: `built` holds the exercises
   * in the order the loop makes them, `count` the rounds drawn.
   */
  method LegacyGenerateExercises(t: LegacyTables, moduleNumber: int, mode: Mode, activePackIds: seq<int>, rng: RandomSource)
    returns (r: seq<Exercise>, ghost built: seq<Exercise>, ghost count: nat)
    modifies rng
    ensures LexemesByModule(t, moduleNumber, activePackIds) == [] ==> r == [] && built == []
    ensures multiset(r) == multiset(built) && NumberedFrom(built, LegacyStartId(moduleNumber))
    ensures forall i, j :: 0 <= i < j < |r| ==> r[i].id != r[j].id
    ensures forall e :: e in r ==> LegacyAnswerable(e)
    ensures var n := |LexemesByModule(t, moduleNumber, activePackIds)|;
      n > 0 ==>
        && (mode == Quick ==> (
              && 5 <= count <= 7 && |r| == count
              && (forall e :: e in r ==> e.kind == MATCHING || e.kind == FILL_IN_BLANK)
              && (n < 5 ==> forall e :: e in r ==> e.kind == FILL_IN_BLANK)))
        && (mode == Deep ==> 10 <= count <= 12 && Kinds(built) == DeepKinds(count, n))
  {
    var lexemes := GetLexemesByModule(t, moduleNumber, activePackIds);
    r, built, count := [], [], 0;
    if |lexemes| == 0 {
      return;
    }
    var start := LegacyStartId(moduleNumber);
    var rounds := DrawCount(mode, rng);
    var exercises;
    if mode == Quick {
      exercises := QuickBatch(lexemes, rounds, start, rng);
    } else {
      exercises := DeepBatch(lexemes, rounds, start, rng);
    }
    r := Shuffle(exercises, rng);
    built, count := exercises, rounds;
    PermutationMembership(r, exercises);
    PermutationKeepsKeysDistinct(exercises, r, ExerciseId);
  }
}
