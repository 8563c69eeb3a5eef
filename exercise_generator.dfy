/**
 * The exercise generator: sentence templates, the case a fill-in-the-blank
 * exercise practises, one builder per exercise type (multiple choice, matching,
 * fill in the blank, listen and type) and the batch generator that resolves the
 * lesson's scope, plans the slots from the section type, numbers the exercises
 * and shuffles them.
 */
module ExerciseGenerator {
  import opened Text
  import opened Seqs
  import opened Models
  import opened Random
  import opened RussianDictionary
  import opened ThemeHelper
  import opened CompatibilityStorage
  import opened SentenceCompatibility
  import opened SentenceVariety
  import opened SentenceGenerator
  import opened Content

  // ---------------------------------------------------------------------
  // Sentence templates.

  datatype Template = Template(part1: string, part2: string, requiresPlural: bool, isPossession: bool)

  function PrepositionalTemplates(): seq<Template> {
    [ Template("Я живу в", "(I live in ___)", false, false),
      Template("Мы в", "(We are in ___)", false, false),
      Template("Он работает в", "(He works in ___)", false, false) ]
  }

  function AccusativeTemplates(): seq<Template> {
    [ Template("Я читаю", "(I read ___)", false, false),
      Template("Я смотрю", "(I watch ___)", false, false),
      Template("Я люблю", "(I love ___)", false, false),
      Template("Он слушает", "(He listens to ___)", false, false) ]
  }

  function VerbTemplates(): seq<Template> {
    [ Template("Я хочу", "", false, false),
      Template("Мы любим", "", false, false),
      Template("Они могут", "", false, false) ]
  }

  function NounTemplates(): seq<Template> {
    [ Template("Это", "", false, false),
      Template("Вот", "", false, false) ]
  }

  function GenitiveTemplates(): seq<Template> {
    [ Template("У меня нет", "(I don't have ___)", false, false),
      Template("В городе нет", "(There is no ___ in the city)", false, false),
      Template("У меня два", "(I have two ___)", false, false),
      Template("У меня три", "(I have three ___)", false, false),
      Template("У меня четыре", "(I have four ___)", false, false),
      Template("У меня пять", "(I have five ___)", true, false),
      Template("В Москве много", "(There are many ___ in Moscow)", true, false),
      Template("Недалеко от", "(Not far from ___)", false, false),
      Template("Около", "(Near ___)", false, false),
      Template("Это машина", "(This is ___'s car)", false, true) ]
  }

  /** `getRandomItems(templates, 1)[0]`: the template a draw selects. */
  function PickTemplate(templates: seq<Template>, pick: nat): (t: Template)
    requires |templates| > 0
    ensures t in templates
  {
    templates[pick % |templates|]
  }

  /** `part1.split(' ')[0]` */
  function FirstWord(s: string): string {
    Split(s, ' ')[0]
  }

  /** The first word of a word, a space and anything else is that word. */
  lemma {:induction false} FirstWordOfSpaced(w: string, rest: string)
    requires ' ' !in w
    ensures FirstWord(w + " " + rest) == w
    decreases |w|
  {
    if w == [] {
      assert w + " " + rest == [' '] + rest;
    } else {
      assert (w + " " + rest)[1..] == w[1..] + " " + rest;
      FirstWordOfSpaced(w[1..], rest);
    }
  }

  /** The `find` callback: the template's first word occurs in `s`. */
  function OpensSentence(s: string): Template -> bool {
    (t: Template) => Contains(s, FirstWord(t.part1))
  }

  /** Index of the first template whose first word occurs in `s`, or `|templates|`. */
  function MatchingTemplateIndex(templates: seq<Template>, s: string): (i: nat)
    ensures i <= |templates|
  {
    FirstIndex(templates, OpensSentence(s))
  }

  /**
   * `requiresPlural` of the compatible-pair path: the flag of the first genitive
   * template whose first word occurs in the generated sentence, `false` if none.
   */
  function RequiresPlural(part1: string): bool {
    var i := MatchingTemplateIndex(GenitiveTemplates(), part1);
    i < |GenitiveTemplates()| && GenitiveTemplates()[i].requiresPlural
  }

  /** `s` starts with the word `w` followed by a space. */
  predicate OpensWith(s: string, w: string) {
    ' ' !in w && |w| < |s| && s[..|w|] == w && s[|w|] == ' '
  }

  /**
   * The two plural templates start with the same words as the two singular
   * templates before them ("У", "В"), so the lookup never reaches them.
   */
  lemma PluralTemplatesAreShadowed(part1: string)
    ensures !RequiresPlural(part1)
  {
    PluralTemplatesAreSixthAndSeventh();
    PluralTemplatesRepeatOpenings();
    PluralLookupShadowed(GenitiveTemplates(), part1, "У", "В");
  }

  /** Only the sixth and seventh genitive templates ask for the plural. */
  lemma PluralTemplatesAreSixthAndSeventh()
    ensures forall k :: 0 <= k < |GenitiveTemplates()| && GenitiveTemplates()[k].requiresPlural ==> k == 5 || k == 6
  {
    var ts := GenitiveTemplates();
    assert !ts[0].requiresPlural && !ts[1].requiresPlural && !ts[2].requiresPlural && !ts[3].requiresPlural;
    assert !ts[4].requiresPlural && !ts[7].requiresPlural && !ts[8].requiresPlural && !ts[9].requiresPlural;
    PluralOnlyAtSixthAndSeventh(ts);
  }

  lemma PluralOnlyAtSixthAndSeventh(ts: seq<Template>)
    requires |ts| == 10
    requires !ts[0].requiresPlural && !ts[1].requiresPlural && !ts[2].requiresPlural && !ts[3].requiresPlural
    requires !ts[4].requiresPlural && !ts[7].requiresPlural && !ts[8].requiresPlural && !ts[9].requiresPlural
    ensures forall k :: 0 <= k < |ts| && ts[k].requiresPlural ==> k == 5 || k == 6
  {
    forall k | 0 <= k < |ts|
      ensures ts[k].requiresPlural ==> k == 5 || k == 6
    {
      if k < 5 {
        assert k == 0 || k == 1 || k == 2 || k == 3 || k == 4;
      } else if k > 6 {
        assert k == 7 || k == 8 || k == 9;
      }
    }
  }

  /** The sixth template opens like the first ("У"), the seventh like the second ("В"). */
  lemma PluralTemplatesRepeatOpenings()
    ensures OpensWith(GenitiveTemplates()[0].part1, "У") && OpensWith(GenitiveTemplates()[5].part1, "У")
    ensures OpensWith(GenitiveTemplates()[1].part1, "В") && OpensWith(GenitiveTemplates()[6].part1, "В")
  {
    var ts := GenitiveTemplates();
    OpensWithLetter(ts[0].part1, 'У');
    OpensWithLetter(ts[5].part1, 'У');
    OpensWithLetter(ts[1].part1, 'В');
    OpensWithLetter(ts[6].part1, 'В');
  }

  /** A one-letter opening word. */
  lemma OpensWithLetter(s: string, c: char)
    requires c != ' ' && |s| > 1 && s[0] == c && s[1] == ' '
    ensures OpensWith(s, [c])
  {
  }

  /**
   * When the only plural templates are the sixth and seventh, and each opens with
   * the same word as an earlier template, the lookup never lands on a plural one.
   */
  lemma PluralLookupShadowed(ts: seq<Template>, s: string, w0: string, w1: string)
    requires |ts| > 6 && forall k :: 0 <= k < |ts| && ts[k].requiresPlural ==> k == 5 || k == 6
    requires OpensWith(ts[0].part1, w0) && OpensWith(ts[5].part1, w0)
    requires OpensWith(ts[1].part1, w1) && OpensWith(ts[6].part1, w1)
    ensures var i := MatchingTemplateIndex(ts, s); !(i < |ts| && ts[i].requiresPlural)
  {
    EarlierTemplateWins(ts, s, 0, 5, w0);
    EarlierTemplateWins(ts, s, 1, 6, w1);
  }

  /** A sentence that starts with a word and a space has that word first. */
  lemma FirstWordOfPrefix(s: string, w: string)
    requires OpensWith(s, w)
    ensures FirstWord(s) == w
  {
    assert s == w + " " + s[|w| + 1..];
    FirstWordOfSpaced(w, s[|w| + 1..]);
  }

  /** A template never matches when an earlier one starts with the same word. */
  lemma EarlierTemplateWins(ts: seq<Template>, s: string, a: nat, b: nat, w: string)
    requires a < b < |ts| && OpensWith(ts[a].part1, w) && OpensWith(ts[b].part1, w)
    ensures MatchingTemplateIndex(ts, s) != b
  {
    assert MatchingTemplateIndex(ts, s) == FirstIndex(ts, OpensSentence(s));
    FirstWordOfPrefix(ts[a].part1, w);
    FirstWordOfPrefix(ts[b].part1, w);
  }

  /** The one template flagged as a possession sentence is the tenth. */
  lemma PossessionTemplateIsUnique()
    ensures forall i :: 0 <= i < |GenitiveTemplates()| ==> (GenitiveTemplates()[i].isPossession <==> i == 9)
  {
    var ts := GenitiveTemplates();
    assert !ts[0].isPossession && !ts[1].isPossession && !ts[2].isPossession && !ts[3].isPossession && !ts[4].isPossession;
    assert !ts[5].isPossession && !ts[6].isPossession && !ts[7].isPossession && !ts[8].isPossession && ts[9].isPossession;
    PossessionOnlyAtTenth(ts);
  }

  lemma PossessionOnlyAtTenth(ts: seq<Template>)
    requires |ts| == 10
    requires !ts[0].isPossession && !ts[1].isPossession && !ts[2].isPossession && !ts[3].isPossession && !ts[4].isPossession
    requires !ts[5].isPossession && !ts[6].isPossession && !ts[7].isPossession && !ts[8].isPossession && ts[9].isPossession
    ensures forall i :: 0 <= i < |ts| ==> (ts[i].isPossession <==> i == 9)
  {
    forall i | 0 <= i < |ts|
      ensures ts[i].isPossession <==> i == 9
    {
      if i < 5 {
        assert i == 0 || i == 1 || i == 2 || i == 3 || i == 4;
      } else if i < 9 {
        assert i == 5 || i == 6 || i == 7 || i == 8;
      }
    }
  }

  function NotPossession(t: Template): bool {
    !t.isPossession
  }

  /** `genitiveTemplates.filter(t => !t.isPossession)` */
  function PlainGenitiveTemplates(): (ts: seq<Template>)
    ensures |ts| > 0
    ensures forall t :: t in ts ==> t in GenitiveTemplates() && !t.isPossession
  {
    var ts := Filter(GenitiveTemplates(), NotPossession);
    assert GenitiveTemplates()[0] in ts;
    ts
  }

  // ---------------------------------------------------------------------
  // The case a fill-in-the-blank exercise practises.

  function Mentions(word: string): GrammarRule -> bool {
    (r: GrammarRule) => Contains(Lower(r.ruleName), word)
  }

  /** `grammarRules.filter(r => r.rule_name.toLowerCase().includes(word)).map(r => r.rule_id)` */
  function RuleIdsMentioning(rules: seq<GrammarRule>, word: string): (ids: seq<int>)
    ensures forall id :: id in ids ==> id in RuleIds(rules)
  {
    var f := Filter(rules, Mentions(word));
    assert forall k :: 0 <= k < |f| ==> f[k] in rules;
    RuleIds(f)
  }

  /** Some rule name mentions the word, exactly when filtering by it keeps a rule. */
  lemma MentionsAgree(rules: seq<GrammarRule>, word: string)
    ensures AnyRuleMentions(rules, word) <==> Filter(rules, Mentions(word)) != []
  {
    var f := Filter(rules, Mentions(word));
    if f != [] {
      assert f[0] in f;
    }
  }

  /** The case word a rule name has to contain for the rule to be listed with the exercise. */
  function CaseWord(c: Case): string {
    match c
    case GenitiveCase => "genitive"
    case Prepositional => "prepositional"
    case _ => "accusative"
  }

  /** Genitive when some rule mentions it, else prepositional when some rule does and none mentions accusative, else accusative. */
  function FillCase(rules: seq<GrammarRule>): (c: Case)
    ensures c == GenitiveCase <==> AnyRuleMentions(rules, "genitive")
    ensures c == Prepositional <==>
      !AnyRuleMentions(rules, "genitive") && AnyRuleMentions(rules, "prepositional") && !AnyRuleMentions(rules, "accusative")
    ensures c == Accusative || c == Prepositional || c == GenitiveCase
  {
    if AnyRuleMentions(rules, "genitive") then GenitiveCase
    else if AnyRuleMentions(rules, "prepositional") && !AnyRuleMentions(rules, "accusative") then Prepositional
    else Accusative
  }

  // ---------------------------------------------------------------------
  // Fill-in-the-blank exercises, one function per way the source builds one.

  function FillInExercise(id: int, part1: string, part2: string, answer: string, lexemeIds: seq<int>, ruleIds: seq<int>): (e: Exercise)
    ensures e.id == id && e.kind == FILL_IN_BLANK && e.correctAnswer == answer
    ensures e.sentencePart1 == Some(part1) && e.sentencePart2 == Some(part2)
    ensures e.lexemeIds == Some(lexemeIds) && e.grammarRuleIds == Some(ruleIds)
    ensures e.chapterId.None? && e.sectionId.None?
  {
    BareExercise(id, FILL_IN_BLANK, answer).(sentencePart1 := Some(part1), sentencePart2 := Some(part2),
      lexemeIds := Some(lexemeIds), grammarRuleIds := Some(ruleIds))
  }

  /** "Это машина ___": the noun's genitive singular. */
  function PossessionExercise(id: int, noun: Lexeme, rules: seq<GrammarRule>): (e: Exercise)
    ensures e.id == id && e.kind == FILL_IN_BLANK && e.sentencePart2.Some? && e.chapterId.None? && e.sectionId.None?
    ensures e.correctAnswer == GetCaseForm(noun.russianWord, GenitiveCase, noun.gender)
    ensures e.sentencePart1 == Some("Это машина") && e.lexemeIds == Some([noun.lexemeId])
    ensures e.grammarRuleIds == Some(RuleIdsMentioning(rules, "genitive"))
  {
    var t := GenitiveTemplates()[9];
    FillInExercise(id, t.part1, t.part2, GetCaseForm(noun.russianWord, GenitiveCase, noun.gender),
      [noun.lexemeId], RuleIdsMentioning(rules, "genitive"))
  }

  /**
   * The compatible-pair exercise: the varied sentence for the pair in case `c`,
   * the noun in that case (genitive plural when the template lookup asks for it),
   * preceded by the adjective when the sentence has one.
   */
  function PairExercise(id: int, verb: Lexeme, noun: Lexeme, adjectives: seq<Lexeme>, rules: seq<GrammarRule>,
                        c: Case, includeAdjective: bool, differentPhrasing: bool, pick: nat): (e: Exercise)
    ensures e.id == id && e.kind == FILL_IN_BLANK && e.sentencePart1.Some? && e.sentencePart2.Some?
    ensures e.chapterId.None? && e.sectionId.None?
    ensures e.grammarRuleIds == Some(RuleIdsMentioning(rules, CaseWord(c)))
    ensures e.lexemeIds.Some? && |e.lexemeIds.value| >= 2
      && e.lexemeIds.value[0] == verb.lexemeId && e.lexemeIds.value[1] == noun.lexemeId
  {
    var v := GenerateVariedSentence(verb, noun, adjectives, rules, VariedOptions(includeAdjective, Ya, Some(c), differentPhrasing), pick);
    SentenceExercise(id, verb, noun, rules, c, v)
  }

  /** The exercise around a generated sentence `v` for the pair. */
  /** The noun as the blank shows it: the genitive plural when the template lookup asks for it, else the case form. */
  function SentenceNounForm(noun: Lexeme, c: Case, part1: string): string {
    if c == GenitiveCase && RequiresPlural(part1)
    then GetGenitivePluralForm(noun.russianWord, noun.gender)
    else GetCaseForm(noun.russianWord, c, noun.gender)
  }

  function SentenceExercise(id: int, verb: Lexeme, noun: Lexeme, rules: seq<GrammarRule>, c: Case, v: VariedSentence): (e: Exercise)
    ensures e.id == id && e.kind == FILL_IN_BLANK && e.sentencePart1 == Some(v.part1) && e.sentencePart2 == Some(v.part2)
    ensures e.chapterId.None? && e.sectionId.None?
    ensures e.grammarRuleIds == Some(RuleIdsMentioning(rules, CaseWord(c)))
    ensures e.lexemeIds.Some? && |e.lexemeIds.value| >= 2
      && e.lexemeIds.value[0] == verb.lexemeId && e.lexemeIds.value[1] == noun.lexemeId
  {
    var nounForm := SentenceNounForm(noun, c, v.part1);
    var answer := if v.adjective.Some? then GetCaseForm(v.adjective.value.russianWord, c, noun.gender) + " " + nounForm else nounForm;
    FillInExercise(id, v.part1, v.part2, answer, PairLexemeIds(verb, noun, v.adjective), RuleIdsMentioning(rules, CaseWord(c)))
  }

  /** The verb, the noun and the adjective if there is one. */
  function PairLexemeIds(verb: Lexeme, noun: Lexeme, adjective: Option<Lexeme>): (ids: seq<int>)
    ensures |ids| >= 2 && ids[0] == verb.lexemeId && ids[1] == noun.lexemeId
  {
    if adjective.Some? then [verb.lexemeId, noun.lexemeId, adjective.value.lexemeId] else [verb.lexemeId, noun.lexemeId]
  }

  /** Whatever sentence of the generated shape it is given, the answer is its tail after the pronoun and the verb. */
  lemma SentenceExerciseSpellsOutAnswer(id: int, verb: Lexeme, noun: Lexeme, rules: seq<GrammarRule>, c: Case, v: VariedSentence,
                                        verbForm: string)
    requires v.adjective.None? ==> v.part1 == Join(["Я", verbForm] + [GetCaseForm(noun.russianWord, c, noun.gender)], " ")
    requires v.adjective.Some? ==> v.part1 == Join(["Я", verbForm] + [GetCaseForm(v.adjective.value.russianWord, c, noun.gender),
                                                   GetCaseForm(noun.russianWord, c, noun.gender)], " ")
    ensures var e := SentenceExercise(id, verb, noun, rules, c, v);
      e.sentencePart1 == Some("Я " + verbForm + " " + e.correctAnswer)
      && EndsWith(e.correctAnswer, GetCaseForm(noun.russianWord, c, noun.gender))
  {
    PluralTemplatesAreShadowed(v.part1);
    assert "Я" + " " == "Я ";
    var cased := GetCaseForm(noun.russianWord, c, noun.gender);
    if v.adjective.Some? {
      var af := GetCaseForm(v.adjective.value.russianWord, c, noun.gender);
      JoinAfterVerb("Я", verbForm, [af, cased], af + " " + cased);
      EndsWithAppend(af + " ", cased);
    } else {
      JoinAfterVerb("Я", verbForm, [cased], cased);
      EndsWithAppend([], cased);
    }
  }

  /** Joining a pronoun, a verb and the words of a tail spells out the tail after the pronoun and the verb. */
  lemma JoinAfterVerb(p: string, verbForm: string, tail: seq<string>, joined: string)
    requires 1 <= |tail| <= 2
    requires joined == (if |tail| == 1 then tail[0] else tail[0] + " " + tail[1])
    ensures Join([p, verbForm] + tail, " ") == p + " " + verbForm + " " + joined
  {
    if |tail| == 1 {
      assert [p, verbForm] + tail == [p, verbForm, tail[0]];
      Join3(p, verbForm, tail[0]);
    } else {
      assert [p, verbForm] + tail == [p, verbForm, tail[0], tail[1]];
      Join4(p, verbForm, tail[0], tail[1]);
    }
  }

  /**
   * On the compatible-pair path the blank's answer is already written out: the
   * first part of the sentence is "Я", the conjugated verb and then the answer,
   * and the answer ends with the noun in case `c`.
   */
  lemma PairExerciseSpellsOutAnswer(id: int, verb: Lexeme, noun: Lexeme, adjectives: seq<Lexeme>, rules: seq<GrammarRule>,
                                    c: Case, includeAdjective: bool, differentPhrasing: bool, pick: nat)
    ensures var e := PairExercise(id, verb, noun, adjectives, rules, c, includeAdjective, differentPhrasing, pick);
      e.sentencePart1 == Some("Я " + GetVerbForm(verb.russianWord, Ya) + " " + e.correctAnswer)
      && EndsWith(e.correctAnswer, GetCaseForm(noun.russianWord, c, noun.gender))
  {
    var v := GenerateVariedSentence(verb, noun, adjectives, rules, VariedOptions(includeAdjective, Ya, Some(c), differentPhrasing), pick);
    VariedSentenceAfterYa(verb, noun, adjectives, rules, c, includeAdjective, differentPhrasing, pick);
    SentenceExerciseSpellsOutAnswer(id, verb, noun, rules, c, v, GetVerbForm(verb.russianWord, Ya));
  }

  /** The first-person sentence in case `c` is "Я", the verb form, the adjective form if any, and the noun form. */
  lemma VariedSentenceAfterYa(verb: Lexeme, noun: Lexeme, adjectives: seq<Lexeme>, rules: seq<GrammarRule>,
                              c: Case, includeAdjective: bool, differentPhrasing: bool, pick: nat)
    ensures var v := GenerateVariedSentence(verb, noun, adjectives, rules, VariedOptions(includeAdjective, Ya, Some(c), differentPhrasing), pick);
      var vf := GetVerbForm(verb.russianWord, Ya);
      var cased := GetCaseForm(noun.russianWord, c, noun.gender);
      && (v.adjective.None? ==> v.part1 == Join(["Я", vf] + [cased], " "))
      && (v.adjective.Some? ==> v.part1 == Join(["Я", vf] + [GetCaseForm(v.adjective.value.russianWord, c, noun.gender), cased], " "))
  {
    var v := GenerateVariedSentence(verb, noun, adjectives, rules, VariedOptions(includeAdjective, Ya, Some(c), differentPhrasing), pick);
    var vf := GetVerbForm(verb.russianWord, Ya);
    var cased := GetCaseForm(noun.russianWord, c, noun.gender);
    CapitalYa();
    if v.adjective.Some? {
      var af := GetCaseForm(v.adjective.value.russianWord, c, noun.gender);
      assert ["Я", vf] + [af, cased] == ["Я", vf, af, cased];
    } else {
      assert ["Я", vf] + [cased] == ["Я", vf, cased];
    }
  }

  /** A genitive template from the random fallback: plural or singular genitive as the template says. */
  function GenitiveTemplateExercise(id: int, noun: Lexeme, rules: seq<GrammarRule>, t: Template): (e: Exercise)
    ensures e.id == id && e.kind == FILL_IN_BLANK && e.sentencePart2.Some? && e.chapterId.None? && e.sectionId.None?
    ensures t.requiresPlural ==> e.correctAnswer == GetGenitivePluralForm(noun.russianWord, noun.gender)
    ensures !t.requiresPlural ==> e.correctAnswer == GetCaseForm(noun.russianWord, GenitiveCase, noun.gender)
    ensures e.sentencePart1 == Some(t.part1) && e.sentencePart2 == Some(t.part2)
    ensures e.lexemeIds == Some([noun.lexemeId]) && e.grammarRuleIds == Some(RuleIdsMentioning(rules, "genitive"))
  {
    var answer := if t.requiresPlural
      then GetGenitivePluralForm(noun.russianWord, noun.gender)
      else GetCaseForm(noun.russianWord, GenitiveCase, noun.gender);
    FillInExercise(id, t.part1, t.part2, answer, [noun.lexemeId], RuleIdsMentioning(rules, "genitive"))
  }

  /** The random fallback without a genitive rule: "Я" and the verb, then the noun in case `c` as the blank. */
  function RandomPairExercise(id: int, verb: Lexeme, noun: Lexeme, rules: seq<GrammarRule>, c: Case): (e: Exercise)
    ensures e.id == id && e.kind == FILL_IN_BLANK && e.sentencePart2.Some? && e.chapterId.None? && e.sectionId.None?
    ensures e.sentencePart1 == Some("Я " + GetVerbForm(verb.russianWord, Ya))
    ensures e.correctAnswer == GetCaseForm(noun.russianWord, c, noun.gender)
    ensures e.sentencePart2.Some? && StartsWith(e.sentencePart2.value, "(I " + verb.englishTranslation + " ")
    ensures e.lexemeIds == Some([verb.lexemeId, noun.lexemeId]) && e.grammarRuleIds == Some(RuleIdsMentioning(rules, CaseWord(c)))
  {
    var head := "(I " + verb.englishTranslation + " ";
    var tail := if c == Prepositional then "in " + noun.englishTranslation + ")"
      else if c == GenitiveCase then noun.englishTranslation + " [genitive])"
      else "a " + noun.englishTranslation + ")";
    assert (head + tail)[..|head|] == head;
    FillInExercise(id, "Я " + GetVerbForm(verb.russianWord, Ya), head + tail,
      GetCaseForm(noun.russianWord, c, noun.gender), [verb.lexemeId, noun.lexemeId], RuleIdsMentioning(rules, CaseWord(c)))
  }

  /**
   * The sentence-generator fallback: the last word of the sentence is the blank,
   * the words before it the first part; nothing when the sentence has one word.
   */
  function SplitSentenceExercise(id: int, sentence: string, lexemes: seq<Lexeme>, rules: seq<GrammarRule>): (r: Option<Exercise>)
    ensures r.Some? <==> |Split(sentence, ' ')| >= 2
    ensures r.Some? ==> r.value.id == id && r.value.kind == FILL_IN_BLANK
    ensures r.Some? ==> r.value.sentencePart1.Some? && r.value.sentencePart1.value + " " + r.value.correctAnswer == sentence
    ensures r.Some? ==> r.value.lexemeIds == Some(LexemeIds(lexemes)) && r.value.grammarRuleIds == Some(RuleIds(rules))
    ensures r.Some? ==> r.value.sentencePart2.Some? && r.value.chapterId.None? && r.value.sectionId.None?
  {
    var words := Split(sentence, ' ');
    if |words| >= 2 then
      var blank := |words| - 1;
      assert words == words[..blank] + [words[blank]];
      JoinSnoc(words[..blank], words[blank], " ");
      JoinSplit(sentence, ' ');
      Some(FillInExercise(id, Join(words[..blank], " "), "", words[blank], LexemeIds(lexemes), RuleIds(rules)))
    else None
  }

  // ---------------------------------------------------------------------
  // The last resort: a contextual sentence around one lexeme.

  /** A rule whose name, lower-cased, mentions one of the three cases. */
  predicate CaseRule(r: GrammarRule) {
    Contains(Lower(r.ruleName), "accusative") || Contains(Lower(r.ruleName), "prepositional")
      || Contains(Lower(r.ruleName), "genitive")
  }

  function CaseRuleIndex(rules: seq<GrammarRule>): (i: nat)
    ensures i <= |rules|
    ensures i < |rules| ==> CaseRule(rules[i])
    ensures forall j :: 0 <= j < i ==> !CaseRule(rules[j])
    decreases |rules|
  {
    if rules == [] then 0
    else if CaseRule(rules[0]) then 0
    else 1 + CaseRuleIndex(rules[1..])
  }

  /**
   * The name of the first rule that mentions a case, as written; the source then
   * tests it for "Genitive", "Accusative" and "Prepositional" with capitals.
   */
  function ApplicableRuleName(rules: seq<GrammarRule>): (r: Option<string>)
    ensures r.Some? ==> exists k :: 0 <= k < |rules| && CaseRule(rules[k]) && r.value == rules[k].ruleName
    ensures r.None? <==> forall k :: 0 <= k < |rules| ==> !CaseRule(rules[k])
  {
    var i := CaseRuleIndex(rules);
    if i < |rules| then Some(rules[i].ruleName) else None
  }

  predicate NameHas(name: Option<string>, word: string) {
    name.Some? && Contains(name.value, word)
  }

  datatype SentenceParts = SentenceParts(part1: string, part2: string)

  /** `generateContextualSentence(target, availableLexemes, grammarRules)`, `pick` standing for the template draw. */
  function ContextualSentence(target: Lexeme, rules: seq<GrammarRule>, pick: nat): (s: SentenceParts)
    ensures target.partOfSpeech == VERB ==>
      exists t :: t in VerbTemplates() && s == SentenceParts(t.part1, "(means \"to " + target.englishTranslation + "\")")
    ensures target.partOfSpeech == NOUN && NameHas(ApplicableRuleName(rules), "Genitive") ==>
      exists t :: t in GenitiveTemplates() && s == SentenceParts(t.part1, t.part2)
    ensures (target.partOfSpeech == NOUN && !NameHas(ApplicableRuleName(rules), "Genitive")
      && NameHas(ApplicableRuleName(rules), "Accusative")) ==>
      exists t :: t in AccusativeTemplates() && s == SentenceParts(t.part1, t.part2)
    ensures (target.partOfSpeech == NOUN && !NameHas(ApplicableRuleName(rules), "Genitive")
      && !NameHas(ApplicableRuleName(rules), "Accusative") && NameHas(ApplicableRuleName(rules), "Prepositional")) ==>
      exists t :: t in PrepositionalTemplates() && s == SentenceParts(t.part1, t.part2)
    ensures (target.partOfSpeech == NOUN && !NameHas(ApplicableRuleName(rules), "Genitive")
      && !NameHas(ApplicableRuleName(rules), "Accusative") && !NameHas(ApplicableRuleName(rules), "Prepositional")) ==>
      exists t :: t in NounTemplates() && s == SentenceParts(t.part1, "(This is a " + target.englishTranslation + ")")
    ensures target.partOfSpeech != VERB && target.partOfSpeech != NOUN ==>
      s == SentenceParts("", "means \"" + target.englishTranslation + "\"")
  {
    var name := ApplicableRuleName(rules);
    if target.partOfSpeech == VERB then
      SentenceParts(PickTemplate(VerbTemplates(), pick).part1, "(means \"to " + target.englishTranslation + "\")")
    else if target.partOfSpeech == NOUN then
      if NameHas(name, "Genitive") then
        var t := PickTemplate(GenitiveTemplates(), pick);
        SentenceParts(t.part1, t.part2)
      else if NameHas(name, "Accusative") then
        var t := PickTemplate(AccusativeTemplates(), pick);
        SentenceParts(t.part1, t.part2)
      else if NameHas(name, "Prepositional") then
        var t := PickTemplate(PrepositionalTemplates(), pick);
        SentenceParts(t.part1, t.part2)
      else
        SentenceParts(PickTemplate(NounTemplates(), pick).part1, "(This is a " + target.englishTranslation + ")")
    else
      SentenceParts("", "means \"" + target.englishTranslation + "\"")
  }

  /** The last-resort exercise: the target's own word is the answer. */
  function ContextualExercise(id: int, target: Lexeme, rules: seq<GrammarRule>, pick: nat): (e: Exercise)
    ensures e.id == id && e.kind == FILL_IN_BLANK && e.correctAnswer == target.russianWord
    ensures e.lexemeIds == Some([target.lexemeId]) && e.grammarRuleIds == Some(RuleIds(rules))
    ensures e.sentencePart1.Some? && e.sentencePart2.Some? && e.chapterId.None? && e.sectionId.None?
  {
    var s := ContextualSentence(target, rules, pick);
    FillInExercise(id, s.part1, s.part2, target.russianWord, [target.lexemeId], RuleIds(rules))
  }

  // ---------------------------------------------------------------------
  // Multiple choice, matching, listen and type.

  /** Prepositions and adverbs make poor multiple-choice questions. */
  predicate SuitableForChoice(l: Lexeme) {
    l.partOfSpeech != PREPOSITION && l.partOfSpeech != ADVERB
  }

  /** The lexemes a multiple-choice question draws from: the suitable ones, or all when none is. */
  function ChoicePool(lexemes: seq<Lexeme>): (pool: seq<Lexeme>)
    ensures |lexemes| > 0 ==> |pool| > 0
    ensures forall l :: l in pool ==> l in lexemes
    ensures (exists l :: l in lexemes && SuitableForChoice(l)) ==> forall l :: l in pool <==> l in lexemes && SuitableForChoice(l)
  {
    var suitable := Filter(lexemes, SuitableForChoice);
    if |suitable| == 0 then lexemes else suitable
  }

  function OtherId(id: int): Lexeme -> bool {
    (l: Lexeme) => l.lexemeId != id
  }

  /** `generateMultipleChoice(lexemes, exerciseId)`: a lexeme's meaning among up to three other lexemes' meanings. */
  method MultipleChoice(lexemes: seq<Lexeme>, id: int, rng: RandomSource) returns (e: Exercise, ghost correct: Lexeme, ghost wrong: seq<Lexeme>)
    requires |lexemes| > 0
    modifies rng
    ensures e.id == id && e.kind == MULTIPLE_CHOICE && e.chapterId.None? && e.sectionId.None?
    ensures correct in ChoicePool(lexemes)
    ensures e.prompt == Some("What does \"" + correct.russianWord + "\" mean?")
    ensures e.correctAnswer == correct.englishTranslation && e.audioToPlay == correct.audioFilePath
    ensures e.lexemeIds == Some([correct.lexemeId])
    ensures |wrong| == Min(3, |Filter(ChoicePool(lexemes), OtherId(correct.lexemeId))|)
    ensures multiset(wrong) <= multiset(Filter(ChoicePool(lexemes), OtherId(correct.lexemeId)))
    ensures forall l :: l in wrong ==> l in ChoicePool(lexemes) && l.lexemeId != correct.lexemeId
    ensures e.options.Some? && multiset(e.options.value) == multiset([correct.englishTranslation] + EnglishWords(wrong))
    ensures e.correctAnswer in e.options.value && 1 <= |e.options.value| <= 4
  {
    var pool := ChoicePool(lexemes);
    var k := rng.Below(|pool|);
    var target := pool[k];
    var others := Filter(pool, OtherId(target.lexemeId));
    var wrongLexemes := RandomItems(others, 3, rng);
    forall l | l in wrongLexemes
      ensures l in pool && l.lexemeId != target.lexemeId
    {
      assert l in multiset(wrongLexemes);
    }
    var answers := [target.englishTranslation] + EnglishWords(wrongLexemes);
    var options := Shuffle(answers, rng);
    assert target.englishTranslation in multiset(answers);
    e := BareExercise(id, MULTIPLE_CHOICE, target.englishTranslation).(
      prompt := Some("What does \"" + target.russianWord + "\" mean?"),
      options := Some(options),
      audioToPlay := target.audioFilePath,
      lexemeIds := Some([target.lexemeId]));
    correct, wrong := target, wrongLexemes;
  }

  /**
   * When the pool's lexeme ids are distinct, every lexeme but the answer is a
   * candidate distractor, so a pool of four or more gives four options.
   */
  lemma {:induction false} DistractorCount(pool: seq<Lexeme>, correct: Lexeme)
    requires NoDup(LexemeIds(pool)) && correct in pool
    ensures |Filter(pool, OtherId(correct.lexemeId))| == |pool| - 1
    ensures |pool| >= 4 ==> 1 + Min(3, |Filter(pool, OtherId(correct.lexemeId))|) == 4
    decreases |pool|
  {
    var rest := pool[1..];
    assert NoDup(LexemeIds(rest)) by {
      forall a, b | 0 <= a < b < |rest| ensures rest[a].lexemeId != rest[b].lexemeId {
        assert LexemeIds(pool)[a + 1] != LexemeIds(pool)[b + 1];
      }
    }
    if pool[0] == correct {
      forall l | l in rest ensures OtherId(correct.lexemeId)(l) {
        var j :| 0 <= j < |rest| && rest[j] == l;
        assert LexemeIds(pool)[0] != LexemeIds(pool)[j + 1];
      }
      FilterKeepsAll(rest, OtherId(correct.lexemeId));
    } else {
      var j :| 0 <= j < |pool| && pool[j] == correct;
      assert rest[j - 1] == correct;
      assert LexemeIds(pool)[0] != LexemeIds(pool)[j];
      DistractorCount(rest, correct);
    }
  }

  /** The pairs `generateMatching` records, lexeme by lexeme, a later word overwriting an earlier one. */
  function PairsMap(ls: seq<Lexeme>): map<string, string>
    decreases |ls|
  {
    if ls == [] then map[]
    else
      var last := ls[|ls| - 1];
      PairsMap(ls[..|ls| - 1])[last.russianWord := last.englishTranslation]
  }

  /** The keys are the Russian words and each maps to the translation of a lexeme with that word. */
  lemma {:induction false} PairsMapContents(ls: seq<Lexeme>)
    ensures PairsMap(ls).Keys == set l | l in ls :: l.russianWord
    ensures forall w :: w in PairsMap(ls) ==> exists l :: l in ls && l.russianWord == w && l.englishTranslation == PairsMap(ls)[w]
    decreases |ls|
  {
    if ls != [] {
      var init := ls[..|ls| - 1];
      PairsMapContents(init);
      InitLast(ls);
      forall w | w in PairsMap(ls)
        ensures exists l :: l in ls && l.russianWord == w && l.englishTranslation == PairsMap(ls)[w]
      {
        if w != ls[|ls| - 1].russianWord {
          var l :| l in init && l.russianWord == w && l.englishTranslation == PairsMap(init)[w];
          assert l in ls;
        }
      }
    }
  }

  /** With distinct Russian words every lexeme's own pair is recorded. */
  lemma {:induction false} PairsMapDistinct(ls: seq<Lexeme>, i: nat)
    requires NoDup(RussianWords(ls)) && i < |ls|
    ensures ls[i].russianWord in PairsMap(ls) && PairsMap(ls)[ls[i].russianWord] == ls[i].englishTranslation
    decreases |ls|
  {
    var n := |ls| - 1;
    if i < n {
      var init := ls[..n];
      assert RussianWords(init) == RussianWords(ls)[..n];
      assert NoDup(RussianWords(init)) by {
        forall a, b | 0 <= a < b < |init| ensures init[a].russianWord != init[b].russianWord {
          assert RussianWords(ls)[a] != RussianWords(ls)[b];
        }
      }
      PairsMapDistinct(init, i);
      assert RussianWords(ls)[i] != RussianWords(ls)[n];
    }
  }

  /** `generateMatching(lexemes, exerciseId)`: up to five lexemes, their words left, their translations shuffled right. */
  method Matching(lexemes: seq<Lexeme>, id: int, rng: RandomSource) returns (e: Exercise, ghost selected: seq<Lexeme>)
    modifies rng
    ensures e.id == id && e.kind == MATCHING && e.correctAnswer == [] && e.chapterId.None? && e.sectionId.None?
    ensures |selected| == Min(5, |lexemes|) && multiset(selected) <= multiset(lexemes)
    ensures e.leftColumnItems == Some(RussianWords(selected))
    ensures e.rightColumnItems.Some? && multiset(e.rightColumnItems.value) == multiset(EnglishWords(selected))
    ensures e.correctPairs == Some(PairsMap(selected))
    ensures e.correctPairs.value.Keys == set w | w in e.leftColumnItems.value
    ensures |e.rightColumnItems.value| == |e.leftColumnItems.value| <= 5
    ensures e.lexemeIds == Some(LexemeIds(selected))
  {
    var chosen := RandomItems(lexemes, Min(5, |lexemes|), rng);
    var left := RussianWords(chosen);
    var right := Shuffle(EnglishWords(chosen), rng);
    var pairs: map<string, string> := map[];
    for i := 0 to |chosen|
      invariant pairs == PairsMap(chosen[..i])
    {
      assert chosen[..i + 1][..i] == chosen[..i];
      pairs := pairs[chosen[i].russianWord := chosen[i].englishTranslation];
    }
    assert chosen[..|chosen|] == chosen;
    PairsMapContents(chosen);
    assert (set l | l in chosen :: l.russianWord) == set w | w in left by {
      forall w | w in left ensures w in set l | l in chosen :: l.russianWord {
        var k :| 0 <= k < |left| && left[k] == w;
        assert chosen[k] in chosen;
      }
    }
    e := BareExercise(id, MATCHING, []).(
      leftColumnItems := Some(left),
      rightColumnItems := Some(right),
      correctPairs := Some(pairs),
      lexemeIds := Some(LexemeIds(chosen)));
    selected := chosen;
  }

  /** `generateListenType(lexemes, exerciseId)`: the drawn lexeme's word, its recording as the audio. */
  function ListenType(lexemes: seq<Lexeme>, id: int, pick: nat): (e: Exercise)
    requires |lexemes| > 0
    ensures e.id == id && e.kind == LISTEN_TYPE && e.chapterId.None? && e.sectionId.None?
    ensures exists l :: (l in lexemes && e.correctAnswer == l.russianWord && e.audioToPlay == l.audioFilePath
      && e.lexemeIds == Some([l.lexemeId]))
  {
    var l := lexemes[pick % |lexemes|];
    BareExercise(id, LISTEN_TYPE, l.russianWord).(audioToPlay := l.audioFilePath, lexemeIds := Some([l.lexemeId]))
  }

  // ---------------------------------------------------------------------
  // Fill in the blank: the compatible pair, the random pair, the sentence
  // generator and the contextual sentence, tried in that order.

  /** The lexemes hold a verb and a noun, so one of the two pair paths builds the exercise. */
  predicate HasVerbAndNoun(lexemes: seq<Lexeme>) {
    (exists v :: v in lexemes && v.partOfSpeech == VERB) && (exists n :: n in lexemes && n.partOfSpeech == NOUN)
  }

  /** The answer puts the noun in case `c`: it ends with that form, or it is the genitive plural. */
  predicate CaseAnswer(answer: string, noun: Lexeme, c: Case) {
    EndsWith(answer, GetCaseForm(noun.russianWord, c, noun.gender))
      || (c == GenitiveCase && answer == GetGenitivePluralForm(noun.russianWord, noun.gender))
  }

  lemma EndsWithItself(s: string)
    ensures EndsWith(s, s)
  {
    EndsWithAppend([], s);
    assert [] + s == s;
  }

  /** A rule listed by case word is one of the rules. */
  lemma MentioningIsListed(rules: seq<GrammarRule>, word: string)
    ensures forall id :: id in RuleIdsMentioning(rules, word) ==> id in RuleIds(rules)
  {
  }

  /** The pair paths: a compatible pair if one is found, else a random verb and noun. */
  method PairFillInBlank(t: Tables, verbs: seq<Lexeme>, nouns: seq<Lexeme>, id: int, allAvailable: seq<Lexeme>,
                         rules: seq<GrammarRule>, activePackIds: seq<int>, store: CompatibilityStore, rng: RandomSource)
    returns (e: Exercise, ghost noun: Lexeme)
    requires |verbs| > 0 && |nouns| > 0
    modifies store, rng
    ensures e.id == id && e.kind == FILL_IN_BLANK && e.sentencePart1.Some? && e.sentencePart2.Some?
    ensures e.chapterId.None? && e.sectionId.None?
    ensures e.grammarRuleIds == Some(RuleIdsMentioning(rules, CaseWord(FillCase(rules))))
    ensures noun in nouns && CaseAnswer(e.correctAnswer, noun, FillCase(rules))
    ensures store.slot == old(store.slot) || exists v, n :: (v in verbs && n in nouns
      && store.slot == Saved(Apply(old(store.Load()), PatternEntry(v.lexemeId, n.lexemeId, true))))
  {
    var active := ActivePacks(Some(t.vocabPacks), Some(activePackIds));
    var packThemes := BuildPackThemeMap(active);
    var lexemeToPack := BuildLexemeToPackMap(active);
    var ctx := ThemeContext(Some(packThemes), Some(active), Some(lexemeToPack));
    var pair := FindCompatiblePair(verbs, nouns, ctx, store, rng);
    if pair.Some? {
      e, noun := CompatiblePairFillInBlank(pair.value.verb, pair.value.noun, nouns, id, allAvailable, rules, store, rng);
    } else {
      e, noun := RandomPairFillInBlank(verbs, nouns, id, rules, rng);
    }
  }

  /** The compatible-pair path: the pair is recorded as compatible, then a possession or a varied sentence. */
  method CompatiblePairFillInBlank(verb: Lexeme, noun: Lexeme, nouns: seq<Lexeme>, id: int, allAvailable: seq<Lexeme>,
                                   rules: seq<GrammarRule>, store: CompatibilityStore, rng: RandomSource)
    returns (e: Exercise, ghost blanked: Lexeme)
    modifies store, rng
    ensures e.id == id && e.kind == FILL_IN_BLANK && e.sentencePart1.Some? && e.sentencePart2.Some?
    ensures e.chapterId.None? && e.sectionId.None?
    ensures e.grammarRuleIds == Some(RuleIdsMentioning(rules, CaseWord(FillCase(rules))))
    ensures blanked == noun && CaseAnswer(e.correctAnswer, noun, FillCase(rules))
    ensures store.slot == Saved(Apply(old(store.Load()), PatternEntry(verb.lexemeId, noun.lexemeId, true)))
  {
    blanked := noun;
    StoreCompatibilityPattern(store, verb.lexemeId, noun.lexemeId, true);
    e := CompatiblePairExercise(verb, noun, nouns, id, allAvailable, rules, rng);
  }

  /** The exercise the compatible-pair path builds once the pair is recorded. */
  method CompatiblePairExercise(verb: Lexeme, noun: Lexeme, nouns: seq<Lexeme>, id: int, allAvailable: seq<Lexeme>,
                                rules: seq<GrammarRule>, rng: RandomSource) returns (e: Exercise)
    modifies rng
    ensures e.id == id && e.kind == FILL_IN_BLANK && e.sentencePart1.Some? && e.sentencePart2.Some?
    ensures e.chapterId.None? && e.sectionId.None?
    ensures e.grammarRuleIds == Some(RuleIdsMentioning(rules, CaseWord(FillCase(rules))))
    ensures CaseAnswer(e.correctAnswer, noun, FillCase(rules))
  {
    var c := FillCase(rules);
    var adjectives := GetAvailableAdjectives(nouns, allAvailable);
    var includeAdjective := false;
    if |adjectives| > 0 {
      includeAdjective := rng.Chance();
    }
    if c == GenitiveCase {
      var possession := rng.Chance();
      if possession {
        EndsWithItself(GetCaseForm(noun.russianWord, GenitiveCase, noun.gender));
        e := PossessionExercise(id, noun, rules);
        return;
      }
    }
    var phrasing := rng.Chance();
    var pick := rng.Next();
    PairExerciseSpellsOutAnswer(id, verb, noun, adjectives, rules, c, includeAdjective, phrasing, pick);
    e := PairExercise(id, verb, noun, adjectives, rules, c, includeAdjective, phrasing, pick);
  }

  /** The random-pair path: a drawn verb and noun, genitive templates when a rule names the genitive. */
  method RandomPairFillInBlank(verbs: seq<Lexeme>, nouns: seq<Lexeme>, id: int, rules: seq<GrammarRule>, rng: RandomSource)
    returns (e: Exercise, ghost blanked: Lexeme)
    requires |verbs| > 0 && |nouns| > 0
    modifies rng
    ensures e.id == id && e.kind == FILL_IN_BLANK && e.sentencePart1.Some? && e.sentencePart2.Some?
    ensures e.chapterId.None? && e.sectionId.None?
    ensures e.grammarRuleIds == Some(RuleIdsMentioning(rules, CaseWord(FillCase(rules))))
    ensures blanked in nouns && CaseAnswer(e.correctAnswer, blanked, FillCase(rules))
  {
    var vi := rng.Below(|verbs|);
    var ni := rng.Below(|nouns|);
    var verb, noun := verbs[vi], nouns[ni];
    blanked := noun;
    var c := FillCase(rules);
    if c == GenitiveCase {
      e := RandomGenitiveFillInBlank(noun, id, rules, rng);
      return;
    }
    EndsWithItself(GetCaseForm(noun.russianWord, c, noun.gender));
    e := RandomPairExercise(id, verb, noun, rules, c);
  }

  /** The genitive branch of the random-pair path: a possession sentence or a plain genitive template. */
  method RandomGenitiveFillInBlank(noun: Lexeme, id: int, rules: seq<GrammarRule>, rng: RandomSource) returns (e: Exercise)
    modifies rng
    ensures e.id == id && e.kind == FILL_IN_BLANK && e.sentencePart1.Some? && e.sentencePart2.Some?
    ensures e.chapterId.None? && e.sectionId.None?
    ensures e.grammarRuleIds == Some(RuleIdsMentioning(rules, "genitive"))
    ensures CaseAnswer(e.correctAnswer, noun, GenitiveCase)
  {
    EndsWithItself(GetCaseForm(noun.russianWord, GenitiveCase, noun.gender));
    var possession := rng.Chance();
    if possession {
      e := PossessionExercise(id, noun, rules);
      return;
    }
    var plain := PlainGenitiveTemplates();
    var k := rng.Below(|plain|);
    e := GenitiveTemplateExercise(id, noun, rules, PickTemplate(plain, k));
  }

  /** `generateFillInBlank(lexemes, exerciseId, allAvailableLexemes, grammarRules, activePackIds)` */
  method FillInBlank(t: Tables, lexemes: seq<Lexeme>, id: int, allAvailable: seq<Lexeme>, rules: seq<GrammarRule>,
                     activePackIds: seq<int>, store: CompatibilityStore, rng: RandomSource) returns (e: Exercise)
    requires |lexemes| > 0
    modifies store, rng
    ensures e.id == id && e.kind == FILL_IN_BLANK && e.sentencePart1.Some? && e.sentencePart2.Some?
    ensures e.chapterId.None? && e.sectionId.None?
    ensures e.grammarRuleIds.Some? && forall r :: r in e.grammarRuleIds.value ==> r in RuleIds(rules)
    ensures HasVerbAndNoun(lexemes) ==> e.grammarRuleIds == Some(RuleIdsMentioning(rules, CaseWord(FillCase(rules))))
    ensures HasVerbAndNoun(lexemes) ==>
      exists n :: n in lexemes && n.partOfSpeech == NOUN && CaseAnswer(e.correctAnswer, n, FillCase(rules))
    ensures !HasVerbAndNoun(lexemes) ==> e.grammarRuleIds == Some(RuleIds(rules))
    ensures !HasVerbAndNoun(lexemes) ==> (e.lexemeIds == Some(LexemeIds(lexemes))
      || exists l :: l in lexemes && e.correctAnswer == l.russianWord && e.lexemeIds == Some([l.lexemeId]))
    ensures store.slot == old(store.slot) || exists v, n :: (v in lexemes && v.partOfSpeech == VERB
      && n in lexemes && n.partOfSpeech == NOUN
      && store.slot == Saved(Apply(old(store.Load()), PatternEntry(v.lexemeId, n.lexemeId, true))))
  {
    var verbs := Filter(lexemes, IsVerbLexeme);
    var nouns := Filter(lexemes, IsNounLexeme);
    if |verbs| > 0 && |nouns| > 0 {
      assert verbs[0] in verbs && nouns[0] in nouns;
      ghost var noun;
      e, noun := PairFillInBlank(t, verbs, nouns, id, allAvailable, rules, activePackIds, store, rng);
      MentioningIsListed(rules, CaseWord(FillCase(rules)));
      return;
    }
    e := SentenceFillInBlank(t, lexemes, id, rules, activePackIds, store, rng);
  }

  /** The paths without a verb and a noun: the generated sentence split at its last word, else a contextual sentence. */
  method SentenceFillInBlank(t: Tables, lexemes: seq<Lexeme>, id: int, rules: seq<GrammarRule>,
                             activePackIds: seq<int>, store: CompatibilityStore, rng: RandomSource) returns (e: Exercise)
    requires |lexemes| > 0
    modifies rng
    ensures e.id == id && e.kind == FILL_IN_BLANK && e.sentencePart1.Some? && e.sentencePart2.Some?
    ensures e.chapterId.None? && e.sectionId.None?
    ensures e.grammarRuleIds == Some(RuleIds(rules))
    ensures e.lexemeIds == Some(LexemeIds(lexemes))
      || exists l :: l in lexemes && e.correctAnswer == l.russianWord && e.lexemeIds == Some([l.lexemeId])
  {
    var sentence := GenerateSentenceFromLexemes(lexemes, Easy, Some(t.vocabPacks), Some(activePackIds), store, rng);
    if sentence.Some? {
      var split := SplitSentenceExercise(id, sentence.value, lexemes, rules);
      if split.Some? {
        return split.value;
      }
    }
    var k := rng.Below(|lexemes|);
    var pick := rng.Next();
    e := ContextualExercise(id, lexemes[k], rules, pick);
  }

  // ---------------------------------------------------------------------
  // The batch generator.

  datatype Mode = Quick | Deep

  /** The exercise kinds a section type asks for, cycled through by the batch loop. */
  datatype Slot = MultipleChoiceSlot | MatchingSlot | FillInBlankSlot | ListenTypeSlot

  /**
   * The slot plan for the section type (`None`: no section) and whether a rule
   * names the genitive; a letter-learning section has none.
   */
  function SlotPlan(sectionType: Option<SectionType>, hasGenitive: bool): (plan: seq<Slot>)
    ensures sectionType == Some(LETTER_LEARNING) <==> plan == []
    ensures hasGenitive && (sectionType.None? || sectionType == Some(GRAMMAR) || sectionType == Some(MIXED_REVIEW)) ==>
      plan[0] == FillInBlankSlot
    ensures ListenTypeSlot in plan ==> !hasGenitive || sectionType == Some(SPELLING) || sectionType == Some(LISTENING)
  {
    match sectionType
    case None =>
      if hasGenitive then [FillInBlankSlot, FillInBlankSlot, MatchingSlot, MultipleChoiceSlot]
      else [MultipleChoiceSlot, MatchingSlot, FillInBlankSlot, ListenTypeSlot]
    case Some(GRAMMAR) =>
      if hasGenitive then [FillInBlankSlot, FillInBlankSlot, FillInBlankSlot, MatchingSlot]
      else [FillInBlankSlot, MultipleChoiceSlot, FillInBlankSlot]
    case Some(VOCABULARY) => [MatchingSlot, MultipleChoiceSlot, MultipleChoiceSlot]
    case Some(SPELLING) => [ListenTypeSlot, FillInBlankSlot, ListenTypeSlot]
    case Some(LISTENING) => [ListenTypeSlot, MultipleChoiceSlot, ListenTypeSlot]
    case Some(MIXED_REVIEW) =>
      if hasGenitive then [FillInBlankSlot, MultipleChoiceSlot, FillInBlankSlot, MatchingSlot, FillInBlankSlot]
      else [MultipleChoiceSlot, MatchingSlot, FillInBlankSlot, ListenTypeSlot]
    case Some(LETTER_LEARNING) => []
  }

  /**
   * What a slot produces for `n` lexemes: a multiple-choice slot becomes fill in the
   * blank when a rule names the genitive and is skipped below four lexemes; a
   * matching slot is skipped below three.
   */
  function SlotKind(slot: Slot, hasGenitive: bool, n: nat): (k: Option<ExerciseType>)
    ensures k == Some(MULTIPLE_CHOICE) <==> slot == MultipleChoiceSlot && !hasGenitive && n >= 4
    ensures k == Some(MATCHING) <==> slot == MatchingSlot && n >= 3
    ensures n >= 4 ==> k.Some?
  {
    match slot
    case MultipleChoiceSlot =>
      if !hasGenitive && n >= 4 then Some(MULTIPLE_CHOICE) else if hasGenitive then Some(FILL_IN_BLANK) else None
    case MatchingSlot => if n >= 3 then Some(MATCHING) else None
    case FillInBlankSlot => Some(FILL_IN_BLANK)
    case ListenTypeSlot => Some(LISTEN_TYPE)
  }

  /** The kinds of the exercises the first `count` loop rounds build, in order. */
  function PlannedKinds(plan: seq<Slot>, count: nat, hasGenitive: bool, n: nat): seq<ExerciseType>
    requires |plan| > 0
    decreases count
  {
    if count == 0 then []
    else
      PlannedKinds(plan, count - 1, hasGenitive, n)
        + match SlotKind(plan[(count - 1) % |plan|], hasGenitive, n)
          case Some(k) => [k]
          case None => []
  }

  /** At most one exercise per round, and exactly one once there are four lexemes. */
  lemma {:induction false} PlannedKindsLength(plan: seq<Slot>, count: nat, hasGenitive: bool, n: nat)
    requires |plan| > 0
    ensures |PlannedKinds(plan, count, hasGenitive, n)| <= count
    ensures n >= 4 ==> |PlannedKinds(plan, count, hasGenitive, n)| == count
    decreases count
  {
    if count > 0 {
      PlannedKindsLength(plan, count - 1, hasGenitive, n);
    }
  }

  /** A genitive rule rules out multiple choice; too few lexemes rule out multiple choice and matching. */
  lemma {:induction false} PlannedKindsExclude(plan: seq<Slot>, count: nat, hasGenitive: bool, n: nat)
    requires |plan| > 0
    ensures hasGenitive || n < 4 ==> MULTIPLE_CHOICE !in PlannedKinds(plan, count, hasGenitive, n)
    ensures n < 3 ==> MATCHING !in PlannedKinds(plan, count, hasGenitive, n)
    decreases count
  {
    if count > 0 {
      PlannedKindsExclude(plan, count - 1, hasGenitive, n);
    }
  }

  function Kinds(es: seq<Exercise>): (ks: seq<ExerciseType>)
    ensures |ks| == |es| && forall k :: 0 <= k < |es| ==> ks[k] == es[k].kind
  {
    seq(|es|, k requires 0 <= k < |es| => es[k].kind)
  }

  function Ids(es: seq<Exercise>): (ids: seq<int>)
    ensures |ids| == |es| && forall k :: 0 <= k < |es| ==> ids[k] == es[k].id
  {
    seq(|es|, k requires 0 <= k < |es| => es[k].id)
  }

  /** What each kind of exercise needs to be answerable. */
  predicate Answerable(e: Exercise) {
    match e.kind
    case MULTIPLE_CHOICE => e.options.Some? && e.correctAnswer in e.options.value
    case MATCHING =>
      e.leftColumnItems.Some? && e.rightColumnItems.Some? && e.correctPairs.Some?
      && |e.leftColumnItems.value| == |e.rightColumnItems.value|
      && e.correctPairs.value.Keys == set w | w in e.leftColumnItems.value
    case FILL_IN_BLANK => e.sentencePart1.Some? && e.sentencePart2.Some?
    case LISTEN_TYPE => e.lexemeIds.Some? && |e.lexemeIds.value| == 1
    case _ => false
  }

  /** The exercise tagged with the chapter and the section it was generated for. */
  function Stamped(e: Exercise, chapter: Option<Chapter>, section: Option<Section>): (r: Exercise)
    ensures r.chapterId == (if chapter.Some? then Some(chapter.value.chapterId) else e.chapterId)
    ensures r.sectionId == (if section.Some? then Some(section.value.sectionId) else e.sectionId)
    ensures r.id == e.id && r.kind == e.kind && Answerable(r) == Answerable(e)
  {
    var withChapter := if chapter.Some? then e.(chapterId := Some(chapter.value.chapterId)) else e;
    if section.Some? then withChapter.(sectionId := Some(section.value.sectionId)) else withChapter
  }

  /** The exercise carries exactly the chapter and section tags of the request. */
  predicate TaggedFor(e: Exercise, chapter: Option<Chapter>, section: Option<Section>) {
    e.chapterId == (if chapter.Some? then Some(chapter.value.chapterId) else None)
    && e.sectionId == (if section.Some? then Some(section.value.sectionId) else None)
  }

  /** Builds the exercise of one slot, or nothing when the slot is skipped. */
  method BuildSlot(t: Tables, slot: Slot, lexemes: seq<Lexeme>, id: int, allAvailable: seq<Lexeme>, rules: seq<GrammarRule>,
                   activePackIds: seq<int>, store: CompatibilityStore, rng: RandomSource) returns (e: Option<Exercise>)
    requires |lexemes| > 0
    modifies store, rng
    ensures e.None? <==> SlotKind(slot, AnyRuleMentions(rules, "genitive"), |lexemes|).None?
    ensures e.Some? ==> e.value.kind == SlotKind(slot, AnyRuleMentions(rules, "genitive"), |lexemes|).value
    ensures e.Some? ==> e.value.id == id && Answerable(e.value) && e.value.chapterId.None? && e.value.sectionId.None?
  {
    var hasGenitive := AnyRuleMentions(rules, "genitive");
    match slot
    case MultipleChoiceSlot =>
      if !hasGenitive && |lexemes| >= 4 {
        var x, _, _ := MultipleChoice(lexemes, id, rng);
        e := Some(x);
      } else if hasGenitive {
        var x := FillInBlank(t, lexemes, id, allAvailable, rules, activePackIds, store, rng);
        e := Some(x);
      } else {
        e := None;
      }
    case MatchingSlot =>
      if |lexemes| >= 3 {
        var x, _ := Matching(lexemes, id, rng);
        e := Some(x);
      } else {
        e := None;
      }
    case FillInBlankSlot =>
      var x := FillInBlank(t, lexemes, id, allAvailable, rules, activePackIds, store, rng);
      e := Some(x);
    case ListenTypeSlot =>
      var k := rng.Below(|lexemes|);
      e := Some(ListenType(lexemes, id, k));
  }

  function UnlockedBy(n: int): GrammarRule -> bool {
    (r: GrammarRule) => r.unlocksInModule <= n
  }

  /** `GRAMMAR_RULES.filter(r => r.unlocks_in_module <= moduleNumber)` */
  function RulesUnlockedBy(rules: seq<GrammarRule>, n: int): (r: seq<GrammarRule>)
    ensures forall g :: g in r <==> g in rules && g.unlocksInModule <= n
  {
    Filter(rules, UnlockedBy(n))
  }

  /** `chapters.flatMap(ch => ch.associated_lexemes)` */
  function ChapterLexemeIds(chapters: seq<Chapter>): (ids: seq<int>)
    ensures forall id :: id in ids <==> exists c :: c in chapters && id in c.associatedLexemes
    decreases |chapters|
  {
    if chapters == [] then []
    else
      var rest := ChapterLexemeIds(chapters[1..]);
      assert forall c :: c in chapters[1..] ==> c in chapters;
      assert forall c :: c in chapters ==> c == chapters[0] || c in chapters[1..];
      chapters[0].associatedLexemes + rest
  }

  datatype LessonScope = LessonScope(lexemes: seq<Lexeme>, rules: seq<GrammarRule>)

  /**
   * The lexemes and rules a batch is built from: the section's (the section's own
   * lists when a chapter is given and they are non-empty), else the chapter's,
   * else everything learned and unlocked by the module; nothing without any of them.
   */
  function Scope(t: Tables, moduleNumber: Option<int>, section: Option<Section>, chapter: Option<Chapter>,
                 activePackIds: seq<int>): (r: Option<LessonScope>)
    ensures r.None? <==> section.None? && chapter.None? && moduleNumber.None?
    ensures section.Some? && chapter.Some? && |section.value.associatedLexemes| > 0 ==>
      LexemeIds(r.value.lexemes) == Filter(section.value.associatedLexemes, KnownIn(t.lexemes))
    ensures section.Some? && (chapter.None? || |section.value.associatedLexemes| == 0) ==>
      r.value.lexemes == LexemesBySection(t, section.value.sectionId)
    ensures section.Some? && chapter.Some? && |section.value.associatedGrammar| > 0 ==>
      forall g :: g in r.value.rules <==> g in t.grammarRules && g.ruleId in section.value.associatedGrammar
    ensures section.Some? && (chapter.None? || |section.value.associatedGrammar| == 0) ==>
      r.value.rules == GrammarRulesBySection(t, section.value.sectionId)
    ensures section.None? && chapter.Some? ==>
      LexemeIds(r.value.lexemes) == Filter(chapter.value.associatedLexemes, KnownIn(t.lexemes))
      && forall g :: g in r.value.rules <==> g in t.grammarRules && g.ruleId in chapter.value.associatedGrammar
    ensures section.None? && chapter.None? && moduleNumber.Some? ==>
      r.value.lexemes == LearnedLexemes(t, moduleNumber.value, activePackIds)
      && forall g :: g in r.value.rules <==> g in t.grammarRules && g.unlocksInModule <= moduleNumber.value
  {
    if section.Some? then
      var s := section.value;
      var lexemes := if chapter.Some? && |s.associatedLexemes| > 0
        then LexemesByIds(t.lexemes, s.associatedLexemes) else LexemesBySection(t, s.sectionId);
      var rules := if chapter.Some? && |s.associatedGrammar| > 0
        then RulesListed(t.grammarRules, s.associatedGrammar) else GrammarRulesBySection(t, s.sectionId);
      Some(LessonScope(lexemes, rules))
    else if chapter.Some? then
      Some(LessonScope(LexemesByIds(t.lexemes, chapter.value.associatedLexemes),
                       RulesListed(t.grammarRules, chapter.value.associatedGrammar)))
    else if moduleNumber.Some? then
      Some(LessonScope(LearnedLexemes(t, moduleNumber.value, activePackIds), RulesUnlockedBy(t.grammarRules, moduleNumber.value)))
    else None
  }

  /**
   * The lexemes offered as context (adjectives for the sentences): those of every
   * chapter up to the given number, else everything learned by the module, else
   * the batch's own.
   */
  function AllAvailable(t: Tables, moduleNumber: Option<int>, chapterNumber: Option<int>, lexemes: seq<Lexeme>,
                        activePackIds: seq<int>): (r: seq<Lexeme>)
    ensures chapterNumber.Some? ==>
      LexemeIds(r) == Filter(ChapterLexemeIds(ChaptersUpTo(t.chapters, chapterNumber.value)), KnownIn(t.lexemes))
    ensures chapterNumber.Some? ==> forall id :: id in LexemeIds(r) ==>
      exists c :: c in t.chapters && c.chapterNumber <= chapterNumber.value && id in c.associatedLexemes
    ensures chapterNumber.Some? ==> forall c, id ::
      c in t.chapters && c.chapterNumber <= chapterNumber.value && id in c.associatedLexemes && FindLexeme(t.lexemes, id).Some?
      ==> id in LexemeIds(r)
    ensures chapterNumber.None? && moduleNumber.Some? ==> r == LearnedLexemes(t, moduleNumber.value, activePackIds)
    ensures chapterNumber.None? && moduleNumber.None? ==> r == lexemes
  {
    if chapterNumber.Some? then
      var ids := ChapterLexemeIds(ChaptersUpTo(t.chapters, chapterNumber.value));
      LexemesByIds(t.lexemes, ids)
    else if moduleNumber.Some? then LearnedLexemes(t, moduleNumber.value, activePackIds)
    else lexemes
  }

  /** The batch's scope, or nothing when no exercise is generated at all. */
  function Lesson(t: Tables, moduleNumber: Option<int>, section: Option<Section>, chapter: Option<Chapter>,
                  activePackIds: seq<int>): Option<LessonScope>
  {
    if section.Some? && section.value.sectionType == LETTER_LEARNING then None
    else
      match Scope(t, moduleNumber, section, chapter, activePackIds)
      case None => None
      case Some(sc) => if sc.lexemes == [] then None else Some(sc)
  }

  function SectionTypeOf(section: Option<Section>): Option<SectionType> {
    if section.Some? then Some(section.value.sectionType) else None
  }

  /** The first exercise id: the chapter's id times 1000 or the module number times 100, plus the section id. */
  function StartId(moduleNumber: Option<int>, section: Option<Section>, chapter: Option<Chapter>): int {
    (if chapter.Some? then chapter.value.chapterId * 1000 else (if moduleNumber.Some? then moduleNumber.value else 0) * 100)
      + (if section.Some? then section.value.sectionId else 0)
  }

  /** The number of loop rounds: five to seven for a quick session, ten to twelve for a deep one. */
  method DrawCount(mode: Mode, rng: RandomSource) returns (count: nat)
    modifies rng
    ensures mode == Quick ==> 5 <= count <= 7
    ensures mode == Deep ==> 10 <= count <= 12
  {
    var extra := rng.Below(3);
    count := if mode == Quick then 5 + extra else 10 + extra;
  }

  function ExerciseId(e: Exercise): int {
    e.id
  }

  /** The loop of `generateExercises`: one slot of the plan per round, numbered from `start`, tagged. */
  method BuildBatch(t: Tables, plan: seq<Slot>, rounds: nat, lexemes: seq<Lexeme>, start: int, allAvailable: seq<Lexeme>,
                    rules: seq<GrammarRule>, activePackIds: seq<int>, chapter: Option<Chapter>, section: Option<Section>,
                    store: CompatibilityStore, rng: RandomSource) returns (exercises: seq<Exercise>)
    requires |plan| > 0 && |lexemes| > 0
    modifies store, rng
    ensures forall k :: 0 <= k < |exercises| ==> exercises[k].id == start + k
    ensures Kinds(exercises) == PlannedKinds(plan, rounds, AnyRuleMentions(rules, "genitive"), |lexemes|)
    ensures forall k :: 0 <= k < |exercises| ==> Answerable(exercises[k]) && TaggedFor(exercises[k], chapter, section)
  {
    var hasGenitive := AnyRuleMentions(rules, "genitive");
    exercises := [];
    for i := 0 to rounds
      invariant forall k :: 0 <= k < |exercises| ==> exercises[k].id == start + k
      invariant Kinds(exercises) == PlannedKinds(plan, i, hasGenitive, |lexemes|)
      invariant forall k :: 0 <= k < |exercises| ==> Answerable(exercises[k]) && TaggedFor(exercises[k], chapter, section)
    {
      var made := BuildSlot(t, plan[i % |plan|], lexemes, start + |exercises|, allAvailable, rules, activePackIds, store, rng);
      if made.Some? {
        var e := Stamped(made.value, chapter, section);
        assert Kinds(exercises + [e]) == Kinds(exercises) + [e.kind];
        exercises := exercises + [e];
      }
    }
  }

  /**
   * What the batch for lesson `sc` keeps to: a section that is not letter learning, five to seven rounds for a quick session and ten to
   * twelve for a deep one, the planned kinds in loop order, one exercise per round once the lesson
   * has four lexemes, and no multiple choice in a lesson with a genitive rule.
   */
  predicate PlannedBatch(sc: LessonScope, sectionType: Option<SectionType>, mode: Mode,
                         r: seq<Exercise>, built: seq<Exercise>, count: nat) {
    var hasGenitive := AnyRuleMentions(sc.rules, "genitive");
    && sectionType != Some(LETTER_LEARNING)
    && (mode == Quick ==> 5 <= count <= 7) && (mode == Deep ==> 10 <= count <= 12)
    && Kinds(built) == PlannedKinds(SlotPlan(sectionType, hasGenitive), count, hasGenitive, |sc.lexemes|)
    && |r| <= count && (|sc.lexemes| >= 4 ==> |r| == count)
    && (hasGenitive ==> forall e :: e in r ==> e.kind != MULTIPLE_CHOICE)
  }

  /** The batch for a non-empty scope: the planned rounds, then the exercises shuffled. */
  method GenerateForScope(t: Tables, sc: LessonScope, sectionType: Option<SectionType>, mode: Mode, start: int,
                          allAvailable: seq<Lexeme>, activePackIds: seq<int>, chapter: Option<Chapter>, section: Option<Section>,
                          store: CompatibilityStore, rng: RandomSource)
    returns (r: seq<Exercise>, ghost built: seq<Exercise>, ghost count: nat)
    requires |sc.lexemes| > 0 && sectionType != Some(LETTER_LEARNING)
    modifies store, rng
    ensures multiset(r) == multiset(built)
    ensures PlannedBatch(sc, sectionType, mode, r, built, count)
    ensures forall k :: 0 <= k < |built| ==> built[k].id == start + k
    ensures forall i, j :: 0 <= i < j < |r| ==> r[i].id != r[j].id
    ensures forall e :: e in r ==> Answerable(e) && TaggedFor(e, chapter, section)
  {
    var hasGenitive := AnyRuleMentions(sc.rules, "genitive");
    var plan := SlotPlan(sectionType, hasGenitive);
    var rounds := DrawCount(mode, rng);
    var exercises := BuildBatch(t, plan, rounds, sc.lexemes, start, allAvailable, sc.rules, activePackIds, chapter, section, store, rng);
    PlannedKindsLength(plan, rounds, hasGenitive, |sc.lexemes|);
    PlannedKindsExclude(plan, rounds, hasGenitive, |sc.lexemes|);
    r := Shuffle(exercises, rng);
    built, count := exercises, rounds;
    PermutationMembership(r, exercises);
    PermutationKeepsKeysDistinct(exercises, r, ExerciseId);
    forall e | e in r
      ensures Answerable(e) && TaggedFor(e, chapter, section) && (hasGenitive ==> e.kind != MULTIPLE_CHOICE)
    {
      var k :| 0 <= k < |exercises| && exercises[k] == e;
      assert Kinds(exercises)[k] == e.kind;
    }
  }

  /**
   * `generateExercises(moduleNumber, section, mode, activePackIds, chapter, chapterNumber)`:
   * `built` holds the exercises in the order the loop makes them, `count` the rounds.
   */
  method GenerateExercises(t: Tables, moduleNumber: Option<int>, section: Option<Section>, mode: Mode, activePackIds: seq<int>,
                           chapter: Option<Chapter>, chapterNumber: Option<int>, store: CompatibilityStore, rng: RandomSource)
    returns (r: seq<Exercise>, ghost built: seq<Exercise>, ghost count: nat)
    modifies store, rng
    ensures Lesson(t, moduleNumber, section, chapter, activePackIds).None? ==> r == []
    ensures multiset(r) == multiset(built)
    ensures Lesson(t, moduleNumber, section, chapter, activePackIds).Some? ==>
      PlannedBatch(Lesson(t, moduleNumber, section, chapter, activePackIds).value, SectionTypeOf(section), mode, r, built, count)
    ensures forall k :: 0 <= k < |built| ==> built[k].id == StartId(moduleNumber, section, chapter) + k
    ensures forall i, j :: 0 <= i < j < |r| ==> r[i].id != r[j].id
    ensures forall e :: e in r ==> Answerable(e) && TaggedFor(e, chapter, section)
  {
    r, built, count := [], [], 0;
    if section.Some? && section.value.sectionType == LETTER_LEARNING {
      return;
    }
    var scope := Scope(t, moduleNumber, section, chapter, activePackIds);
    if scope.None? || scope.value.lexemes == [] {
      return;
    }
    ghost var sc := scope.value;
    assert Lesson(t, moduleNumber, section, chapter, activePackIds) == Some(sc);
    var allAvailable := AllAvailable(t, moduleNumber, chapterNumber, scope.value.lexemes, activePackIds);
    r, built, count := GenerateForScope(t, scope.value, SectionTypeOf(section), mode, StartId(moduleNumber, section, chapter),
                                        allAvailable, activePackIds, chapter, section, store, rng);
  }
}
