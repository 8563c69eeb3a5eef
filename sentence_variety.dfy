/**
 * Varied practice sentences from one verb–noun pair: the case the grammar rules call
 * for, an optional adjective, the Russian sentence and its English gloss, and the
 * sweep of pronouns and cases that makes a set of variations.
 */
module SentenceVariety {
  import opened Text
  import opened Seqs
  import opened Models
  import opened Random
  import opened RussianDictionary

  predicate IsAdjective(l: Lexeme) {
    l.partOfSpeech == ADJECTIVE
  }

  /** `getAvailableAdjectives(nouns, allLexemes)`: the adjectives among all lexemes, in order; the nouns are not consulted. */
  function GetAvailableAdjectives(nouns: seq<Lexeme>, allLexemes: seq<Lexeme>): (r: seq<Lexeme>)
    ensures |r| <= |allLexemes|
    ensures forall l :: l in r <==> l in allLexemes && l.partOfSpeech == ADJECTIVE
  {
    Filter(allLexemes, IsAdjective)
  }

  /** `rules.some(r => r.rule_name.toLowerCase().includes(word))` */
  predicate AnyRuleMentions(rules: seq<GrammarRule>, word: string) {
    exists r :: r in rules && Contains(Lower(r.ruleName), word)
  }

  /**
   * The case of the object: the one asked for, else prepositional when some rule names
   * the prepositional case and none the accusative, else accusative.
   */
  function SelectCase(caseType: Option<Case>, rules: seq<GrammarRule>): (c: Case)
    ensures caseType.Some? ==> c == caseType.value
    ensures caseType.None? ==> (c == Prepositional || c == Accusative)
    ensures caseType.None? ==>
      (c == Prepositional <==> AnyRuleMentions(rules, "prepositional") && !AnyRuleMentions(rules, "accusative"))
  {
    if caseType.Some? then caseType.value
    else if AnyRuleMentions(rules, "prepositional") && !AnyRuleMentions(rules, "accusative") then Prepositional
    else Accusative
  }

  /** The `options` argument of `generateVariedSentence`, defaults filled in. */
  datatype VariedOptions = VariedOptions(includeAdjective: bool, pronoun: Pronoun, caseType: Option<Case>, useDifferentPhrasing: bool)

  datatype VariedSentence = VariedSentence(part1: string, part2: string, adjective: Option<Lexeme>)

  /** The adjective, when one is asked for and there is one: the `pick`-th modulo the list's length. */
  function SelectAdjective(includeAdjective: bool, adjectives: seq<Lexeme>, pick: nat): (r: Option<Lexeme>)
    ensures r.Some? <==> includeAdjective && |adjectives| > 0
    ensures r.Some? ==> r.value in adjectives
  {
    if includeAdjective && |adjectives| > 0 then Some(adjectives[pick % |adjectives|]) else None
  }

  /** The Russian sentence: pronoun, verb, the adjective if any and the noun, each in form, single-spaced. */
  function RussianPart(pronounCapitalized: string, conjugatedVerb: string, adjectiveForm: Option<string>, casedNoun: string): (s: string)
    ensures adjectiveForm.None? ==> s == Join([pronounCapitalized, conjugatedVerb, casedNoun], " ")
    ensures adjectiveForm.Some? ==> s == Join([pronounCapitalized, conjugatedVerb, adjectiveForm.value, casedNoun], " ")
  {
    if adjectiveForm.Some? then
      Join4(pronounCapitalized, conjugatedVerb, adjectiveForm.value, casedNoun);
      pronounCapitalized + " " + conjugatedVerb + " " + adjectiveForm.value + " " + casedNoun
    else
      Join3(pronounCapitalized, conjugatedVerb, casedNoun);
      pronounCapitalized + " " + conjugatedVerb + " " + casedNoun
  }

  /**
   * The words of the English gloss: the pronoun and the verb's gloss, "in" before a
   * prepositional object and "a" before any other, the adjective's gloss when there is one,
   * and the noun's gloss.
   */
  function GlossWords(pronounCapitalized: string, verbGloss: string, c: Case, adjective: Option<Lexeme>, nounGloss: string): seq<string> {
    [pronounCapitalized, verbGloss, if c == Prepositional then "in" else "a"]
      + (if adjective.Some? then [adjective.value.englishTranslation] else []) + [nounGloss]
  }

  /** The English gloss: its words separated by single spaces, in parentheses. */
  function EnglishPart(pronounCapitalized: string, verbGloss: string, c: Case, adjective: Option<Lexeme>, nounGloss: string): (s: string)
    ensures s == "(" + Join(GlossWords(pronounCapitalized, verbGloss, c, adjective, nounGloss), " ") + ")"
  {
    var preposition := if c == Prepositional then "in " else "";
    var article := if c == Prepositional then "" else "a ";
    var adjectiveText := if adjective.Some? then adjective.value.englishTranslation + " " else "";
    var words := GlossWords(pronounCapitalized, verbGloss, c, adjective, nounGloss);
    var tail := if adjective.Some? then [adjective.value.englishTranslation, nounGloss] else [nounGloss];
    assert words[1..] == [verbGloss] + words[2..] && words[2..] == [words[2]] + tail;
    assert preposition + article == words[2] + " ";
    assert Join(tail, " ") == adjectiveText + nounGloss by {
      if adjective.Some? {
        assert tail[1..] == [nounGloss];
      }
    }
    assert Join(words[2..], " ") == words[2] + " " + (adjectiveText + nounGloss);
    assert Join(words[1..], " ") == verbGloss + " " + Join(words[2..], " ");
    assert Join(words, " ") == pronounCapitalized + " " + Join(words[1..], " ");
    "(" + (pronounCapitalized + " " + (verbGloss + " " + (preposition + article + (adjectiveText + nounGloss)))) + ")"
  }

  /**
   * `generateVariedSentence(verb, noun, adjectives, grammarRules, options)`, where `pick`
   * stands for the random adjective index. Both phrasing branches of the source build the
   * same two strings.
   */
  function GenerateVariedSentence(verb: Lexeme, noun: Lexeme, adjectives: seq<Lexeme>, rules: seq<GrammarRule>,
                                  options: VariedOptions, pick: nat): (r: VariedSentence)
    ensures r.adjective == SelectAdjective(options.includeAdjective, adjectives, pick)
    ensures var c := SelectCase(options.caseType, rules);
      var cased := GetCaseForm(noun.russianWord, c, noun.gender);
      var p := Capitalize(PronounWord(options.pronoun));
      var v := GetVerbForm(verb.russianWord, options.pronoun);
      && (r.adjective.None? ==> r.part1 == Join([p, v, cased], " "))
      && (r.adjective.Some? ==> r.part1 == Join([p, v, GetCaseForm(r.adjective.value.russianWord, c, noun.gender), cased], " "))
    ensures r.part2 == "(" + Join(GlossWords(Capitalize(PronounWord(options.pronoun)), verb.englishTranslation,
                                               SelectCase(options.caseType, rules), r.adjective, noun.englishTranslation), " ") + ")"
  {
    var finalCaseType := SelectCase(options.caseType, rules);
    var conjugatedVerb := GetVerbForm(verb.russianWord, options.pronoun);
    var selectedAdjective := SelectAdjective(options.includeAdjective, adjectives, pick);
    var casedNoun := GetCaseForm(noun.russianWord, finalCaseType, noun.gender);
    var pronounCapitalized := Capitalize(PronounWord(options.pronoun));
    var adjectiveForm :=
      if selectedAdjective.Some? then Some(GetCaseForm(selectedAdjective.value.russianWord, finalCaseType, noun.gender)) else None;
    if options.useDifferentPhrasing then
      VariedSentence(RussianPart(pronounCapitalized, conjugatedVerb, adjectiveForm, casedNoun),
                     EnglishPart(pronounCapitalized, verb.englishTranslation, finalCaseType, selectedAdjective, noun.englishTranslation),
                     selectedAdjective)
    else
      VariedSentence(RussianPart(pronounCapitalized, conjugatedVerb, adjectiveForm, casedNoun),
                     EnglishPart(pronounCapitalized, verb.englishTranslation, finalCaseType, selectedAdjective, noun.englishTranslation),
                     selectedAdjective)
  }

  /** `useDifferentPhrasing` changes nothing. */
  lemma PhrasingHasNoEffect(verb: Lexeme, noun: Lexeme, adjectives: seq<Lexeme>, rules: seq<GrammarRule>, options: VariedOptions, pick: nat)
    ensures GenerateVariedSentence(verb, noun, adjectives, rules, options, pick)
         == GenerateVariedSentence(verb, noun, adjectives, rules, options.(useDifferentPhrasing := !options.useDifferentPhrasing), pick)
  {
  }

  /** The pronouns and object cases `generateSentenceVariations` cycles through. */
  function VariationPronoun(i: nat): Pronoun {
    [Ya, Ty, On, Ona, My][i % 5]
  }

  function VariationCase(i: nat): Case {
    [Accusative, Prepositional][i % 2]
  }

  /** The options of the `i`-th variation: an adjective on even items when there are adjectives, a different phrasing on every third. */
  function VariationOptions(i: nat, adjectiveCount: nat): (o: VariedOptions)
    ensures o.includeAdjective <==> i % 2 == 0 && adjectiveCount > 0
    ensures o.pronoun == VariationPronoun(i) && o.caseType == Some(VariationCase(i))
  {
    VariedOptions(i % 2 == 0 && adjectiveCount > 0, VariationPronoun(i), Some(VariationCase(i)), i % 3 == 0)
  }

  /** `v` is what `generateVariedSentence` gives for the `i`-th variation, for some adjective index. */
  ghost predicate IsVariation(v: VariedSentence, i: nat, verb: Lexeme, noun: Lexeme, adjectives: seq<Lexeme>, rules: seq<GrammarRule>) {
    exists pick: nat :: v == GenerateVariedSentence(verb, noun, adjectives, rules, VariationOptions(i, |adjectives|), pick)
  }

  /** The `i`-th variation, `pick` standing for its random adjective index. */
  function Variation(i: nat, verb: Lexeme, noun: Lexeme, adjectives: seq<Lexeme>, rules: seq<GrammarRule>, pick: nat): (v: VariedSentence)
    ensures IsVariation(v, i, verb, noun, adjectives, rules)
    ensures v.adjective.Some? <==> i % 2 == 0 && |adjectives| > 0
  {
    GenerateVariedSentence(verb, noun, adjectives, rules, VariationOptions(i, |adjectives|), pick)
  }

  /** `generateSentenceVariations(verb, noun, adjectives, grammarRules, count)` */
  method GenerateSentenceVariations(verb: Lexeme, noun: Lexeme, adjectives: seq<Lexeme>, rules: seq<GrammarRule>, count: int, rng: RandomSource)
    returns (variations: seq<VariedSentence>)
    modifies rng
    ensures |variations| == (if count < 0 then 0 else count)
    ensures forall i :: 0 <= i < |variations| ==> IsVariation(variations[i], i, verb, noun, adjectives, rules)
    ensures forall i :: 0 <= i < |variations| ==>
      (variations[i].adjective.Some? <==> i % 2 == 0 && |adjectives| > 0)
  {
    variations := [];
    var i := 0;
    while i < count
      invariant 0 <= i <= (if count < 0 then 0 else count) && |variations| == i
      invariant forall k :: 0 <= k < i ==> IsVariation(variations[k], k, verb, noun, adjectives, rules)
      invariant forall k :: 0 <= k < i ==> (variations[k].adjective.Some? <==> k % 2 == 0 && |adjectives| > 0)
    {
      var options := VariationOptions(i, |adjectives|);
      var pick := 0;
      if options.includeAdjective {
        pick := rng.Below(|adjectives|);
      }
      var variation := Variation(i, verb, noun, adjectives, rules, pick);
      variations := variations + [variation];
      i := i + 1;
    }
  }

  /** The test `findAlternativeVerbs` applies: another verb that takes the noun. */
  function IsAlternative(originalVerb: Lexeme, noun: Lexeme, compatible: (Lexeme, Lexeme) -> bool): Lexeme -> bool {
    (v: Lexeme) => v.lexemeId != originalVerb.lexemeId && compatible(v, noun)
  }

  /**
   * `findAlternativeVerbs(originalVerb, noun, allVerbs, isCompatibleFn, ...)`, with the
   * compatibility test and its optional arguments as one function.
   */
  method FindAlternativeVerbs(originalVerb: Lexeme, noun: Lexeme, allVerbs: seq<Lexeme>, compatible: (Lexeme, Lexeme) -> bool)
    returns (alternatives: seq<Lexeme>)
    ensures alternatives == Filter(allVerbs, IsAlternative(originalVerb, noun, compatible))
    ensures forall v :: v in alternatives <==>
      v in allVerbs && v.lexemeId != originalVerb.lexemeId && compatible(v, noun)
  {
    var keep := IsAlternative(originalVerb, noun, compatible);
    alternatives := [];
    for i := 0 to |allVerbs|
      invariant alternatives == Filter(allVerbs[..i], keep)
    {
      FilterSnoc(allVerbs[..i], allVerbs[i], keep);
      assert allVerbs[..i + 1] == allVerbs[..i] + [allVerbs[i]];
      var verb := allVerbs[i];
      if verb.lexemeId == originalVerb.lexemeId {
        continue;
      }
      if compatible(verb, noun) {
        alternatives := alternatives + [verb];
      }
    }
    assert allVerbs[..|allVerbs|] == allVerbs;
  }
}
