# Znayu exercise engine, modelled in Dafny

Znayu is a Russian-learning app. This project models the engine that builds its
lessons and proves properties of that model. It covers:

- **Morphology** (`RussianDictionary`): rule-based Russian morphology. It covers
  - noun case forms;
  - the genitive plural, with its table of exceptions;
  - present-tense verb forms;
  - gender guessed from the ending;
  - three-word phrases;
  - a rough reversal of case forms.
- **Themes** (`ThemeHelper`, `SentenceCompatibility`, `CompatibilityStorage`):
  - the themes of packs and lexemes;
  - the ordered cascade that decides whether a verb can take a noun: explicit
    links, then themes, then learned patterns, then a lenient default;
  - the search for a compatible verb–noun pair;
  - the persisted store of learned patterns. That store is a class whose
    `slot` field holds what the device's key–value store holds.
- **Sentence assembly** (`SentenceVariety`, `SentenceGenerator`):
  - varied sentences from one verb–noun pair, with the case chosen from the
    grammar rules and an optional adjective;
  - the word-list sentence generator with its verb-ending heuristic;
  - its lexeme-based entry point;
  - the loop that collects distinct sentences.
- **Exercise generation** (`ExerciseGenerator`, `Random`):
  - builders for multiple choice, matching, fill in the blank, and listen
    and type;
  - the batch generator. It resolves the lesson scope, draws the batch
    size, cycles the section type's slot table, numbers the exercises, tags
    them with their chapter and section, and shuffles them.
- **Review** (`ReviewGenerator`): a missed exercise rebuilt under an id shifted
  by 1 000 000. It falls back to the original when it cannot be rebuilt.
- **Curriculum lookups** (`Content`): lookups over the content tables, with pack
  gating and de-duplication.
- **Progress** (`UserContext`): the learner's progress record. It is a class
  whose methods replace the record, as the application context does.
- **Earlier versions** (`LegacyExerciseGenerator`, `LegacyContent`,
  `LegacyUserContext`): the JavaScript generator, content lookups and context.

Randomness is modelled two ways:

- Pure functions take the random index as an explicit `pick: nat`, taken modulo
  the list length. A probability gate becomes a boolean.
- Methods draw from a `Random.RandomSource` object. Its `Below(n)` promises only
  a result below `n`, so every property proved holds for every draw.

A shuffle is proved to be a permutation, and nothing more.

The content tables are a `Tables` value passed in, not constants. Every
property therefore holds for any content.

`Text` and `Seqs` hold the string and sequence helpers with JavaScript
semantics. `Models` holds the records.

## Model

| member | source | states |
|---|---|---|
| RussianDictionary.GetCaseForm | src/utils/russianDictionary.ts:14-160 | A blank noun comes back unchanged. Otherwise the result keeps the trimmed noun except for at most its last two characters, and at most the last one outside the prepositional. The nominative is the trimmed noun. |
| RussianDictionary.Inflect | src/utils/russianDictionary.ts:31-159 | The case dispatch on a trimmed noun changes at most two trailing characters, and at most one outside the prepositional. |
| RussianDictionary.AccusativeForm | src/utils/russianDictionary.ts:36-56 | The accusative rewrites at most the final letter. |
| RussianDictionary.PrepositionalForm | src/utils/russianDictionary.ts:58-85 | The prepositional rewrites at most the final two letters (-ия → -ии). |
| RussianDictionary.GenitiveForm | src/utils/russianDictionary.ts:86-116 | The genitive singular rewrites at most the final letter. |
| RussianDictionary.DativeForm | src/utils/russianDictionary.ts:117-135 | The dative rewrites at most the final letter. |
| RussianDictionary.InstrumentalForm | src/utils/russianDictionary.ts:136-156 | The instrumental rewrites at most the final letter. |
| RussianDictionary.AccusativeEndings | src/utils/russianDictionary.ts:36-56 | For a non-blank noun of any given gender: a feminine -а takes -у, a feminine -я takes -ю, and every other noun keeps its trimmed nominative. |
| RussianDictionary.PrepositionalEndings | src/utils/russianDictionary.ts:58-85 | Feminine: -ия → -ии (winning over -я), -а → -е, other -я → -е, -ь → -и, any other ending unchanged. Masculine and neuter: -й → -е, -ь → -и, anything else gains -е. |
| RussianDictionary.GenitiveEndings | src/utils/russianDictionary.ts:86-116 | Feminine: -а → -ы, -я or -ь → -и, else unchanged. Masculine: -й or -ь → -я, else + -а. Neuter: -о → -а, -е → -я, else unchanged. |
| RussianDictionary.DativeEndings | src/utils/russianDictionary.ts:117-135 | Feminine: -а or -я → -е, -ь → -и, else unchanged. Masculine and neuter: -й or -ь → -ю, else + -у. |
| RussianDictionary.InstrumentalEndings | src/utils/russianDictionary.ts:136-156 | Feminine: -а → -ой, -я → -ей, -ь gains -ю, else unchanged. Masculine and neuter: -й or -ь → -ем, else + -ом. |
| RussianDictionary.CaseFormOfTrimmed | src/utils/russianDictionary.ts:15-29 | On a trimmed noun, getCaseForm is the case rule applied with the given gender, or with the gender inferred from the ending. |
| RussianDictionary.GetNounGender | src/utils/russianDictionary.ts:252-264 | The gender is the ending-based inference on the trimmed, lower-cased noun. |
| RussianDictionary.OmittedGenderIsInferred | src/utils/russianDictionary.ts:20-29 | Omitting the gender is the same as passing getNounGender's answer. |
| RussianDictionary.AccusativeOfMasculineAndNeuter | src/utils/russianDictionary.ts:36-56 | For a masculine or neuter noun the accusative equals the nominative. |
| RussianDictionary.GetVerbForm | src/utils/russianDictionary.ts:167-225 | A blank verb comes back unchanged. A verb in -ить loses those three letters and takes the second-conjugation ending. Another verb in -ть, -ти or -чь loses two letters and takes the first-conjugation ending. Any other verb keeps its trimmed form and takes the first-conjugation ending. |
| RussianDictionary.InfinitiveStem | src/utils/russianDictionary.ts:174-181 | The stem is a prefix of the verb, shorter by at most two characters. |
| RussianDictionary.PresentForm | src/utils/russianDictionary.ts:196-222 | -ить verbs drop three letters and take the second conjugation's ending for the person. Other -ть, -ти and -чь verbs drop two letters and take the first conjugation's. Any other verb is kept whole before the first conjugation's ending. |
| RussianDictionary.PresentFormSplits | src/utils/russianDictionary.ts:196-222 | The present form is one stem, fixed for the verb, followed by the person's ending. |
| RussianDictionary.EndingsIdentifyPerson | src/utils/russianDictionary.ts:196-222 | Equal endings mean equal person and number. |
| RussianDictionary.VerbFormDistinguishesPerson | src/utils/russianDictionary.ts:167-225 | Pronouns of different person or number get different verb forms. |
| RussianDictionary.BuildPhrase | src/utils/russianDictionary.ts:234-247 | The phrase is trimmed at its start. |
| RussianDictionary.BuildPhraseJoinsParts | src/utils/russianDictionary.ts:234-247 | The phrase is the capitalised pronoun, the conjugated verb and the cased noun (gender inferred), joined by single spaces. |
| RussianDictionary.GetGenitivePluralForm | src/utils/russianDictionary.ts:271-359 | A blank noun comes back unchanged. A word in the exception table gets the table's form. Any other word follows the regular rules for its given or inferred gender. |
| RussianDictionary.RegularGenitivePlural | src/utils/russianDictionary.ts:300-358 | The regular rule for a gender keeps the stem except for at most the last character. |
| RussianDictionary.MasculineGenitivePlural | src/utils/russianDictionary.ts:303-319 | -й → -ев, -ь → -ей, a final ж, ш, ч or щ gains -ей, anything else gains -ов. |
| RussianDictionary.FeminineGenitivePlural | src/utils/russianDictionary.ts:321-343 | -а after к, г or х → -ов, any other -а is dropped, -я → -й, -ь → -ей, any other ending unchanged. |
| RussianDictionary.NeuterGenitivePlural | src/utils/russianDictionary.ts:345-355 | -о is dropped, -е → -ей, any other ending unchanged. |
| RussianDictionary.GenitivePluralGenderInferred | src/utils/russianDictionary.ts:298-301 | Omitting the gender is the same as passing getNounGender's answer. |
| RussianDictionary.WordExists | src/utils/russianDictionary.ts:365-369 | True exactly when the word holds a Cyrillic letter: such a letter is not white space, so the blank test never decides alone. |
| RussianDictionary.WordExistsExamples | src/utils/russianDictionary.ts:365-369 | книга exists; book and a blank string do not. |
| RussianDictionary.GetNormalForm | src/utils/russianDictionary.ts:375-407 | The reversal keeps the trimmed word except for at most two trailing characters; NormalFormEndings gives the rewrite ending by ending. |
| RussianDictionary.NormalFormRule | src/utils/russianDictionary.ts:381-406 | The ending rewrite keeps all but at most the last two characters; NormalFormEndings gives each ending's result. |
| RussianDictionary.NormalFormEndings | src/utils/russianDictionary.ts:375-407 | For any non-empty word, on its trimmed and lower-cased form: -у and -ю come back unchanged, -ие becomes -ия, any other -е becomes -а, and every other ending comes back unchanged. |
| RussianDictionary.NormalFormOfTrimmed | src/utils/russianDictionary.ts:375-407 | On a trimmed word, getNormalForm is the ending rewrite of its lower-case form. |
| RussianDictionary.FemininePrepositionalEndsInE | src/utils/russianDictionary.ts:60-66 | A trimmed noun ending in -а, without и before it, takes -е in place of -а in the prepositional. |
| RussianDictionary.NormalFormOfE | src/utils/russianDictionary.ts:396-403 | A trimmed word ending in -е, without и before it, goes back to the same stem plus -а. |
| RussianDictionary.NormalFormUndoesFemininePrepositional | src/utils/russianDictionary.ts:396-403 | Reversal undoes the feminine prepositional of an -а noun. |
| RussianDictionary.AccusativeIsNotUndone | src/test/testIntegration.ts:11 | The reversal of книгу is книгу, not the книга the test expects. |
| RussianDictionary.AccusativeIsNeverUndone | src/utils/russianDictionary.ts:381-384 | For every trimmed noun in -а or -я, the reversal returns its accusative unchanged, so never the noun. |
| RussianDictionary.FeminineAccusative | src/utils/russianDictionary.ts:36-45 | With the gender inferred, a trimmed noun in -а or -я has the accusative -у or -ю on the same stem. |
| RussianDictionary.NormalFormRuleIntended | src/utils/russianDictionary.ts:386-406 | -у goes back to -а and -ю to -я on the same stem. Every other word is reversed as the code reverses it. |
| RussianDictionary.GetNormalFormIntended | src/utils/russianDictionary.ts:375-407 | With the -у/-ю noun reversals reached, a non-empty word keeps its trimmed stem except for at most two trailing characters; the round trip is IntendedNormalFormUndoesAccusative. |
| RussianDictionary.IntendedNormalFormUndoesAccusative | src/test/testIntegration.ts:11 | For every trimmed noun in -а or -я, the intended reversal of its accusative gives the noun back. |
| RussianDictionary.IntendedNormalFormOfBook | src/test/testIntegration.ts:11 | The intended reversal of книгу is книга. |
| RussianDictionary.GetWordData | src/utils/russianDictionary.ts:413-423 | There is data exactly when the word exists. It carries the word, its normal form and its inferred gender. |
| RussianDictionary.BookAccusative | src/test/testIntegration.ts:7 | книга in the accusative is книгу. |
| RussianDictionary.ReadIsRead | src/test/testIntegration.ts:8 | читать for я is читаю. |
| RussianDictionary.PhraseFromForms | src/utils/russianDictionary.ts:234-247 | With those two forms, the phrase is "Я читаю книгу". |
| RussianDictionary.ReadsTheBook | src/test/testIntegration.ts:9 | buildPhrase(я, читать, книга, accusative) is "Я читаю книгу". |
| RussianDictionary.CityIsMasculine | src/utils/russianDictionary.ts:18-30 | город is already lower-case, and with no feminine or neuter ending it is inferred masculine. |
| RussianDictionary.CityGenitive | src/utils/russianDictionary.ts:100-105 | город in the genitive is города. |
| RussianDictionary.CityPrepositional | src/utils/russianDictionary.ts:74-83 | город in the prepositional is городе. |
| RussianDictionary.LecturePrepositional | src/utils/russianDictionary.ts:62-63 | лекция in the prepositional is лекции: -ия wins over -я. |
| RussianDictionary.CityGenitivePlural | src/utils/russianDictionary.ts:278-292 | The exception table gives городов. |
| RussianDictionary.BookGenitivePlural | src/utils/russianDictionary.ts:271-359 | книга's genitive plural comes out as книгов. |
| ThemeHelper.Truthy | src/utils/themeHelper.ts:9 | An empty theme counts as missing. |
| ThemeHelper.FindPack | src/utils/themeHelper.ts:8 | The found pack has the id, and nothing is found exactly when no pack has it. |
| ThemeHelper.GetPackTheme | src/utils/themeHelper.ts:7-10 | The result is the theme of the first pack with the id. It is none exactly when no pack has the id, or that pack has no theme or an empty one. |
| ThemeHelper.GetLexemeTheme | src/utils/themeHelper.ts:15-28 | The lexeme's own theme when it is non-empty, otherwise none. Pack themes are never consulted. |
| ThemeHelper.AreThemesCompatible | src/utils/themeHelper.ts:34-58 | Without a map, string equality. With a map, equal themes, or either theme lists the other. |
| ThemeHelper.ThemeCompatibilityIsSymmetric | src/utils/themeHelper.ts:34-58 | Theme compatibility is reflexive and symmetric. |
| ThemeHelper.FirstMatch | src/utils/themeHelper.ts:64-177 | The index is that of the first keyword rule that matches. |
| ThemeHelper.SuggestThemeForLexeme | src/utils/themeHelper.ts:64-177 | None exactly when no rule matches. Otherwise the theme of a matching rule. |
| ThemeHelper.KeywordDecidesByIndex | src/utils/themeHelper.ts:64-177 | A keyword of rule j occurring in the translation means the chosen rule is rule j or an earlier one. |
| ThemeHelper.ThemeNamesDistinct | src/utils/themeHelper.ts:64-177 | The suggested themes are pairwise distinct. |
| ThemeHelper.SuggestionByIndex | src/utils/themeHelper.ts:64-177 | A suggested theme identifies the first matching rule. |
| ThemeHelper.BookIsNeverReadable | src/utils/themeHelper.ts:64-177 | A translation containing "book" is never suggested as readable, because an earlier category wins. |
| ThemeHelper.FoodIsNeverEdible | src/utils/themeHelper.ts:64-177 | A translation containing "food" is never suggested as edible. |
| ThemeHelper.PlacesAreNeverLocations | src/utils/themeHelper.ts:64-177 | University, restaurant and café are never suggested as location. |
| ThemeHelper.BuildPackThemeMap | src/utils/themeHelper.ts:182-190 | The loop builds the map from pack id to theme. |
| ThemeHelper.PackThemeMapKeys | src/utils/themeHelper.ts:182-190 | An id is a key exactly when some pack with that id has a non-empty theme. |
| ThemeHelper.PackThemeMapLastWins | src/utils/themeHelper.ts:182-190 | A key maps to the theme of the last pack with that id and a non-empty theme. |
| ThemeHelper.PackThemeMapContents | src/utils/themeHelper.ts:182-190 | The map holds exactly the ids of packs with a non-empty theme, each mapped to the last such pack's theme. |
| ThemeHelper.PackThemeMapAgreesWithGetPackTheme | src/utils/themeHelper.ts:7-10 | With distinct pack ids, the map and getPackTheme agree. |
| CompatibilityStorage.Key | src/utils/compatibilityStorage.ts:9-11 | The key is the verb id, a colon, then the noun id. |
| CompatibilityStorage.KeyInjective | src/utils/compatibilityStorage.ts:9-11 | Distinct id pairs give distinct keys. |
| CompatibilityStorage.Lookup | src/utils/compatibilityStorage.ts:72 | A stored true reads as true. A stored false reads as absent. |
| CompatibilityStorage.Apply | src/utils/compatibilityStorage.ts:22-32 | One save sets its key and leaves every other key as it was. |
| CompatibilityStorage.ApplyAll | src/utils/compatibilityStorage.ts:99-102 | A batch never removes a key. |
| CompatibilityStorage.ApplyAllAppend | src/utils/compatibilityStorage.ts:93-114 | Two batches in a row equal one batch of both, so a batch is sequential saves. |
| CompatibilityStorage.ApplyAllUntouched | src/utils/compatibilityStorage.ts:93-114 | A pair no entry names keeps its stored value. |
| CompatibilityStorage.ApplyAllLastWins | src/utils/compatibilityStorage.ts:93-114 | The last entry for a pair wins. |
| CompatibilityStorage.OtherPairsUnchanged | src/utils/compatibilityStorage.ts:16-36 | Saving one pair leaves every other pair's reading unchanged. |
| CompatibilityStorage.CompatibilityStore.constructor | src/utils/compatibilityStorage.ts:4 | A fresh store holds nothing. |
| CompatibilityStorage.CompatibilityStore.Load | src/utils/compatibilityStorage.ts:41-60 | Missing or unparsable storage loads as the empty map. |
| CompatibilityStorage.CompatibilityStore.Save | src/utils/compatibilityStorage.ts:16-36 | The store afterwards holds the loaded map with this one pair set. |
| CompatibilityStorage.CompatibilityStore.Get | src/utils/compatibilityStorage.ts:65-77 | True exactly when true is stored for the pair, otherwise null. |
| CompatibilityStorage.CompatibilityStore.Clear | src/utils/compatibilityStorage.ts:82-88 | Afterwards the store is empty and loads as the empty map. |
| CompatibilityStorage.CompatibilityStore.SaveBatch | src/utils/compatibilityStorage.ts:93-114 | The store afterwards holds the loaded map with every entry applied in order. |
| CompatibilityStorage.SaveThenLookup | src/utils/compatibilityStorage.ts:16-36 | Saving true then reading gives true. Saving false then reading gives absent. |
| SentenceCompatibility.ListingPackTheme | src/utils/sentenceCompatibility.ts:41-47 | A pack theme found by listing is non-empty. |
| SentenceCompatibility.ListingPackThemeIsFirst | src/utils/sentenceCompatibility.ts:41-47 | The theme comes from the first pack that lists the lexeme with a non-empty theme. None comes back exactly when no pack does. |
| SentenceCompatibility.MappedPackTheme | src/utils/sentenceCompatibility.ts:30-38 | The lexeme→pack and pack→theme maps give a theme exactly when both are present, the mapped pack id is non-zero and the theme is non-empty. |
| SentenceCompatibility.GetThemeForLexeme | src/utils/sentenceCompatibility.ts:18-50 | Order of precedence: the lexeme's own theme, then the mapped pack theme, then the first listing pack, then none. |
| SentenceCompatibility.IsCompatible | src/utils/sentenceCompatibility.ts:63-69 | An explicit id link in either direction makes the pair compatible. |
| SentenceCompatibility.IsCompatibleCases | src/utils/sentenceCompatibility.ts:56-108 | Compatible exactly when one of these holds: an explicit link; both themes present and matching; a stored true; exactly one side themed. |
| SentenceCompatibility.UntaggedPairsAreIncompatible | src/utils/sentenceCompatibility.ts:96-107 | Two unthemed, unlinked words with nothing stored are incompatible. |
| SentenceCompatibility.StoredFalseIsIgnored | src/utils/sentenceCompatibility.ts:90-94 | A stored false has the same effect as nothing stored. |
| SentenceCompatibility.StoreIrrelevantWhenThemesDecide | src/utils/sentenceCompatibility.ts:63-88 | When a link or the themes decide, the store's content does not matter. |
| SentenceCompatibility.FindCompatibleNouns | src/utils/sentenceCompatibility.ts:113-136 | The loop returns the nouns compatible with the verb, in order. |
| SentenceCompatibility.FindCompatibleVerbs | src/utils/sentenceCompatibility.ts:141-164 | The loop returns the verbs compatible with the noun, in order. |
| SentenceCompatibility.StoreCompatibilityPattern | src/utils/sentenceCompatibility.ts:169-175 | The store afterwards holds the pair's verdict. |
| SentenceCompatibility.MapAll | src/utils/sentenceCompatibility.ts:184-188 | One pack's pass maps each of its lexeme ids to that pack's id and keeps the rest. |
| SentenceCompatibility.MapAllSnoc | src/utils/sentenceCompatibility.ts:185-187 | Setting one more lexeme id to the pack is the same as a single map update. |
| SentenceCompatibility.MapPackLexemes | src/utils/sentenceCompatibility.ts:185-187 | The inner loop maps each of one pack's lexeme ids to that pack and keeps every other key. |
| SentenceCompatibility.BuildLexemeToPackMap | src/utils/sentenceCompatibility.ts:180-190 | The loop builds the lexeme→pack map function. |
| SentenceCompatibility.LexemeToPackMapLastWins | src/utils/sentenceCompatibility.ts:180-190 | A lexeme listed in several packs maps to the last of them. Only listed lexemes are keys. |
| SentenceCompatibility.FirstCompatiblePair | src/utils/sentenceCompatibility.ts:211-226 | The loop returns a pair when some verb's compatible-noun list is non-empty. The pair's verb is from the list and its noun comes from that verb's compatible nouns. None means every verb's list was empty. |
| SentenceCompatibility.NoVerbTakesAny | src/utils/sentenceCompatibility.ts:211-226 | If every verb's compatible-noun list is empty, no verb is compatible with any noun. This is what a None from the loop means. |
| SentenceCompatibility.FindCompatiblePair | src/utils/sentenceCompatibility.ts:196-229 | Empty lists give none. A returned pair has its verb and noun from the lists and is compatible. None means no pair of the lists is compatible. |
| SentenceVariety.GetAvailableAdjectives | src/utils/sentenceVariety.ts:8-15 | Exactly the adjectives among all lexemes. The nouns are not consulted. |
| SentenceVariety.SelectCase | src/utils/sentenceVariety.ts:40-52 | An explicit case wins. Otherwise prepositional exactly when a prepositional rule exists and no accusative rule does, else accusative. Never genitive by inference. |
| SentenceVariety.SelectAdjective | src/utils/sentenceVariety.ts:58-70 | An adjective is chosen exactly when asked for and one is available, and it comes from the list. |
| SentenceVariety.RussianPart | src/utils/sentenceVariety.ts:108-117 | part1 is pronoun, verb, optional adjective and noun, single-spaced. |
| SentenceVariety.EnglishPart | src/utils/sentenceVariety.ts:119-124 | part2 is, in parentheses and joined by single spaces: the capitalised pronoun, the verb's gloss, "in" for the prepositional or else "a", the adjective's gloss when there is one, and the noun's gloss. |
| SentenceVariety.GenerateVariedSentence | src/utils/sentenceVariety.ts:20-132 | The Russian part uses the selected case on the noun and on the adjective, with the noun's gender. The English part is exactly the gloss of the pronoun, verb, case word, adjective and noun, in parentheses. |
| SentenceVariety.PhrasingHasNoEffect | src/utils/sentenceVariety.ts:80-125 | Flipping useDifferentPhrasing changes nothing. |
| SentenceVariety.VariationOptions | src/utils/sentenceVariety.ts:148-158 | Variation i uses pronoun i mod 5 and case i mod 2, and includes an adjective exactly when i is even and adjectives exist. |
| SentenceVariety.Variation | src/utils/sentenceVariety.ts:149-158 | The i-th variation is a varied sentence under that index's options, with an adjective exactly on even indices when there are adjectives. |
| SentenceVariety.GenerateSentenceVariations | src/utils/sentenceVariety.ts:137-164 | Exactly count variations (none for a negative count). Each follows its index's options, with an adjective exactly on even indices when adjectives exist. |
| SentenceVariety.FindAlternativeVerbs | src/utils/sentenceVariety.ts:170-193 | The verbs, in order, other than the original (by id) that the predicate accepts. |
| SentenceGenerator.Verbs | src/utils/sentenceGenerator.ts:28-32 | Exactly the words with a verb ending. |
| SentenceGenerator.Nouns | src/utils/sentenceGenerator.ts:32 | Exactly the words without a verb ending. |
| SentenceGenerator.NounsAreTheNonVerbs | src/utils/sentenceGenerator.ts:32 | The nouns are the order-preserving filter of the non-verbs. |
| SentenceGenerator.HardSentence | src/utils/sentenceGenerator.ts:83-88 | The sentence is the capitalised pronoun, the verb form, the accusative of the first noun (with its inferred gender), "в" and the second noun's form, joined by single spaces. |
| SentenceGenerator.SecondNoun | src/utils/sentenceGenerator.ts:78 | The second noun is one of the nouns and differs from the first. There is none exactly when all nouns are equal. |
| SentenceGenerator.SecondNounAsWritten | src/utils/sentenceGenerator.ts:78 | As written, the index is drawn below nouns.length − 1 but applied to the filtered list. It reads past that list exactly when the index reaches the filtered length. |
| SentenceGenerator.SecondNounAgrees | src/utils/sentenceGenerator.ts:78 | With distinct nouns the code as written and the corrected choice agree. |
| SentenceGenerator.RepeatedNounReadsPastTheEnd | src/utils/sentenceGenerator.ts:78 | Nouns [книга, книга] with first noun книга leave nothing to pick. |
| SentenceGenerator.EasySentence | src/utils/sentenceGenerator.ts:25-46 | Easy mode succeeds exactly when there is a verb. |
| SentenceGenerator.MediumSentence | src/utils/sentenceGenerator.ts:49-63 | Medium mode succeeds exactly when there is a verb and a noun. |
| SentenceGenerator.HardSentenceOf | src/utils/sentenceGenerator.ts:67-89 | Hard mode succeeds exactly when there is a verb and two different nouns. |
| SentenceGenerator.GenerateSentence | src/utils/sentenceGenerator.ts:18-93 | Null for no words. For each difficulty, success exactly when its words are available (hard needs two different nouns). |
| SentenceGenerator.GenerateSentenceAsWritten | src/utils/sentenceGenerator.ts:67-89 | As written, hard mode "succeeds" whenever there is a verb and two nouns, even equal ones. |
| SentenceGenerator.EasyPairPhrase | src/utils/sentenceGenerator.ts:34-38 | With a verb and a noun, easy mode is buildPhrase(я, verb, noun, accusative) for a verb and a noun from the words. |
| SentenceGenerator.EasyVerbOnly | src/utils/sentenceGenerator.ts:41-45 | With verbs only, easy mode is "Я " plus the first word's form for я. |
| SentenceGenerator.MediumPhrase | src/utils/sentenceGenerator.ts:57-63 | Medium mode is buildPhrase with a listed pronoun, a verb and a noun from the words, in the accusative. |
| SentenceGenerator.HardPhrase | src/utils/sentenceGenerator.ts:67-89 | A hard sentence uses a verb and two different nouns from the words. |
| SentenceGenerator.RepeatedNounSentence | src/utils/sentenceGenerator.ts:78 | For [читать, книга, книга] in hard mode the code as written gives a sentence ending "в undefined". The corrected generator gives null. |
| SentenceGenerator.ExtractWords | src/utils/sentenceGenerator.ts:143-149 | No tokens for an empty sentence. Every token is non-empty and not a listed preposition; which tokens are kept, in order, is stated by ExtractWordsOfSentence. |
| SentenceGenerator.ExtractWordsOfSentence | src/utils/sentenceGenerator.ts:143-149 | For any non-empty words without white space joined by single spaces, the result is exactly the words that are not prepositions, in order. |
| SentenceGenerator.ExtractWordsDropsPreposition | src/utils/sentenceGenerator.ts:143-149 | "Я живу в доме" gives Я, живу, доме. |
| SentenceGenerator.ExtractWordsOfJoin | src/utils/sentenceGenerator.ts:143-149 | Content words joined by spaces are extracted back unchanged (a corollary of ExtractWordsOfSentence). |
| SentenceGenerator.SplitJoinedWords | src/utils/sentenceGenerator.ts:146 | Splitting space-joined words without whitespace gives them back. |
| SentenceGenerator.CanGenerateSentences | src/utils/sentenceGenerator.ts:154-170 | True exactly when there are two words, a verb and a noun. |
| SentenceGenerator.SufficientVocabularyGenerates | src/utils/sentenceGenerator.ts:154-170 | A sufficient vocabulary always yields an easy or medium sentence. |
| SentenceGenerator.ExampleVocabularyIsSufficient | src/test/testIntegration.ts:15-16 | читать, книга, смотреть, фильм are enough to generate sentences. |
| SentenceGenerator.GenerateSentences | src/utils/sentenceGenerator.ts:175-198 | Nothing for an insufficient vocabulary. Otherwise at most count distinct sentences, each one the corrected generator can produce, and at least one for easy or medium. The random source is consulted four times per attempt and at most 3·count attempts are made. |
| SentenceGenerator.Attempt | src/utils/sentenceGenerator.ts:190-194 | One attempt draws four numbers and adds at most one new sentence the generator can produce; for easy and medium the list is then non-empty. |
| SentenceGenerator.ActivePacks | src/utils/sentenceGenerator.ts:114-116 | Exactly the packs whose id is active. |
| SentenceGenerator.GenerateSentenceFromLexemes | src/utils/sentenceGenerator.ts:99-138 | Null for no lexemes. A compatible pair, when there is one, gives its phrase. Otherwise the result is a word-list sentence. |
| ExerciseGenerator.PickTemplate | src/utils/exerciseGenerator.ts:437-438 | The template comes from the list. |
| Seqs.FirstIndex | src/utils/exerciseGenerator.ts:345-347 | `find` stops at the first template the callback accepts. Every earlier template is rejected, and an index past the end means none is accepted. |
| ExerciseGenerator.PluralTemplatesRepeatOpenings | src/utils/exerciseGenerator.ts:70-81 | The sixth genitive template opens with the same word as the first ("У"), the seventh with the same word as the second ("В"). |
| ExerciseGenerator.FirstWordOfPrefix | src/utils/exerciseGenerator.ts:345-347 | A sentence that starts with a word and a space has that word as `split(' ')[0]`. |
| ExerciseGenerator.PluralTemplatesAreShadowed | src/utils/exerciseGenerator.ts:342-349 | The plural lookup never lands on a plural template. |
| ExerciseGenerator.PluralTemplatesAreSixthAndSeventh | src/utils/exerciseGenerator.ts:70-81 | Only the sixth and seventh genitive templates ask for the plural. |
| ExerciseGenerator.EarlierTemplateWins | src/utils/exerciseGenerator.ts:342-349 | A template whose opening word appears earlier in the list is never chosen. |
| ExerciseGenerator.PossessionTemplateIsUnique | src/utils/exerciseGenerator.ts:44-82 | Only the tenth genitive template is a possession template. |
| ExerciseGenerator.PlainGenitiveTemplates | src/utils/exerciseGenerator.ts:436 | The non-possession genitive templates are non-empty and drawn from the table. |
| ExerciseGenerator.RuleIdsMentioning | src/utils/exerciseGenerator.ts:378-380 | The listed rule ids come from the rules. |
| ExerciseGenerator.MentionsAgree | src/utils/exerciseGenerator.ts:288-296 | "Some rule mentions the word" agrees with a non-empty filter. |
| ExerciseGenerator.FillCase | src/utils/exerciseGenerator.ts:287-324 | Genitive exactly when a genitive rule exists. Prepositional exactly when there is a prepositional rule and no genitive or accusative one. Otherwise accusative. |
| ExerciseGenerator.FillInExercise | src/utils/exerciseGenerator.ts:369-381 | A fill-in exercise with exactly the given answer, parts and ids. |
| ExerciseGenerator.PossessionExercise | src/utils/exerciseGenerator.ts:303-320 | The possession exercise asks for the genitive singular after "Это машина". |
| ExerciseGenerator.PairExercise | src/utils/exerciseGenerator.ts:327-380 | The pair exercise cites the verb and the noun first, and the rules mentioning its case. |
| ExerciseGenerator.SentenceExercise | src/utils/exerciseGenerator.ts:351-380 | A variation becomes a fill-in whose part1 is the variation's Russian sentence. |
| ExerciseGenerator.SentenceExerciseSpellsOutAnswer | src/utils/exerciseGenerator.ts:351-367 | The blanked answer is already the tail of part1. |
| ExerciseGenerator.PairExerciseSpellsOutAnswer | src/utils/exerciseGenerator.ts:327-367 | On the compatible-pair path, part1 is "Я", the verb form and the answer itself, and the answer ends in the cased noun. |
| ExerciseGenerator.GenitiveTemplateExercise | src/utils/exerciseGenerator.ts:436-457 | A genitive template asks for the genitive plural when it requires it, otherwise the genitive singular. |
| ExerciseGenerator.RandomPairExercise | src/utils/exerciseGenerator.ts:463-487 | The plain exercise is "Я" and the verb form, asking for the cased noun. |
| ExerciseGenerator.SplitSentenceExercise | src/utils/exerciseGenerator.ts:491-511 | A generated sentence of two or more words is split before its last word, which becomes the answer. |
| ExerciseGenerator.ApplicableRuleName | src/utils/exerciseGenerator.ts:112-116 | The name of the first case rule, or none exactly when there is none. |
| ExerciseGenerator.ContextualSentence | src/utils/exerciseGenerator.ts:106-160 | Verbs take a verb template. A noun takes a template from the table of the first matching name among the rule's Genitive, Accusative and Prepositional, and otherwise a noun template. Other words get the bare meaning. |
| ExerciseGenerator.ContextualExercise | src/utils/exerciseGenerator.ts:514-525 | The last resort asks for the word itself and cites every rule. |
| ExerciseGenerator.ChoicePool | src/utils/exerciseGenerator.ts:173-181 | Prepositions and adverbs are dropped when anything else exists. The pool is never empty for non-empty input. |
| ExerciseGenerator.MultipleChoice | src/utils/exerciseGenerator.ts:166-218 | The answer is the translation of a pool lexeme. The options are it plus the translations of min(3, others) other pool lexemes drawn from distinct positions (a sub-multiset of the others), 1 to 4 in all, and they contain the answer. |
| ExerciseGenerator.DistractorCount | src/utils/exerciseGenerator.ts:199-206 | With distinct ids, a pool of four or more gives exactly four options. |
| ExerciseGenerator.PairsMapContents | src/utils/exerciseGenerator.ts:229-232 | The pairs map's keys are the Russian words, each mapped to a lexeme's translation. |
| ExerciseGenerator.PairsMapDistinct | src/utils/exerciseGenerator.ts:229-232 | With distinct words, each word maps to its own translation. |
| ExerciseGenerator.Matching | src/utils/exerciseGenerator.ts:223-243 | min(5, n) lexemes are selected. Left holds their words; right is a permutation of their translations of the same length; the pairs map the left words. |
| ExerciseGenerator.ListenType | src/utils/exerciseGenerator.ts:531-541 | The answer and the audio come from one lexeme. |
| ExerciseGenerator.PairFillInBlank | src/utils/exerciseGenerator.ts:261-488 | The answer is a noun in the rule-chosen case. The store changes, if at all, by recording one compatible pair. |
| ExerciseGenerator.CompatiblePairFillInBlank | src/utils/exerciseGenerator.ts:261-381 | The compatible-pair path records the pair and asks for the noun in the rule-chosen case. |
| ExerciseGenerator.RandomPairFillInBlank | src/utils/exerciseGenerator.ts:392-488 | The random-pair path asks for one of the nouns in the rule-chosen case. |
| ExerciseGenerator.CompatiblePairExercise | src/utils/exerciseGenerator.ts:284-380 | For a recorded pair the answer is the noun in the rule-chosen case, and the exercise cites the rules naming that case. |
| ExerciseGenerator.RandomGenitiveFillInBlank | src/utils/exerciseGenerator.ts:410-458 | With a genitive rule the random path asks for the noun in the genitive, in the possession sentence or a drawn template, and cites the rules naming the genitive. |
| ExerciseGenerator.SentenceFillInBlank | src/utils/exerciseGenerator.ts:489-526 | Without a verb and a noun the exercise cites every rule. It lists all the lexemes, or one lexeme whose word is the answer. |
| ExerciseGenerator.FillInBlank | src/utils/exerciseGenerator.ts:249-526 | With a verb and a noun, the answer is a noun's case form. Otherwise a generated sentence's last word or a lexeme. The cited rules are always from the scope. |
| ExerciseGenerator.SlotPlan | src/utils/exerciseGenerator.ts:616-663 | Letter learning plans nothing. A genitive grammar lesson starts with fill-in. Listen-and-type appears only where the table allows it. |
| ExerciseGenerator.SlotKind | src/utils/exerciseGenerator.ts:671-707 | Multiple choice exactly on its slot without a genitive rule and with four lexemes. Matching exactly on its slot with three. Every slot yields something from four lexemes up. |
| ExerciseGenerator.PlannedKindsLength | src/utils/exerciseGenerator.ts:667-708 | At most the planned count, and exactly it from four lexemes up. |
| ExerciseGenerator.PlannedKindsExclude | src/utils/exerciseGenerator.ts:671-694 | No multiple choice under a genitive rule or below four lexemes. No matching below three. |
| ExerciseGenerator.Stamped | src/utils/exerciseGenerator.ts:676-677 | The chapter and section ids are stamped when given. Nothing else changes. |
| ExerciseGenerator.BuildSlot | src/utils/exerciseGenerator.ts:671-707 | A slot yields an exercise exactly when its kind applies. The exercise has that kind and the id, and is answerable. |
| ExerciseGenerator.RulesUnlockedBy | src/utils/exerciseGenerator.ts:583 | Exactly the rules unlocked by the module. |
| ExerciseGenerator.ChapterLexemeIds | src/utils/exerciseGenerator.ts:597-598 | Exactly the lexeme ids some chapter lists. |
| ExerciseGenerator.Scope | src/utils/exerciseGenerator.ts:559-591 | Section before chapter before module. Each scope's lexemes and rules are those it lists. No scope gives none. |
| ExerciseGenerator.AllAvailable | src/utils/exerciseGenerator.ts:594-604 | With a chapter number, the known lexemes listed by the chapters up to it, in chapter and list order: every such lexeme is offered and no other. Otherwise the learned lexemes or the scope's. |
| ExerciseGenerator.DrawCount | src/utils/exerciseGenerator.ts:665 | Quick draws 5 to 7, deep 10 to 12. |
| ExerciseGenerator.BuildBatch | src/utils/exerciseGenerator.ts:667-708 | Consecutive ids from the start. The kinds follow the plan. Every exercise is answerable and tagged. |
| ExerciseGenerator.GenerateForScope | src/utils/exerciseGenerator.ts:607-711 | A permutation of the built batch: planned kinds, consecutive ids (so distinct), at most count and exactly count from four lexemes up, no multiple choice under a genitive rule. |
| ExerciseGenerator.GenerateExercises | src/utils/exerciseGenerator.ts:546-711 | Empty when there is no scope, for letter learning or with no lexemes. Otherwise the batch guarantees above, with ids from the chapter or module base plus the section id. |
| Random.RandomSource.Below | src/utils/exerciseGenerator.ts:31 | A draw below the bound. |
| Random.ShuffleInPlace | src/utils/exerciseGenerator.ts:28-35 | The Fisher–Yates loop permutes the array. |
| Random.Shuffle | src/utils/exerciseGenerator.ts:28-35 | The shuffled copy is a permutation of the input. |
| Random.RandomItems | src/utils/exerciseGenerator.ts:38-41 | min(count, n) items taken from distinct positions of the input. |
| ReviewGenerator.Shifted | src/utils/reviewGenerator.ts:37-40 | The copy differs from the original only in its id, which is 1 000 000 higher. |
| ReviewGenerator.ChapterById | src/utils/reviewGenerator.ts:85-87 | The chapter with the id, or none exactly when there is none. |
| ReviewGenerator.Candidates | src/utils/reviewGenerator.ts:85-95 | The candidates are the chapter's known lexemes exactly when the question names an existing chapter with at least `minimum` of them. With no chapter, or fewer, they are all lexemes. |
| ReviewGenerator.ChapterLexemes | src/utils/reviewGenerator.ts:85-90 | Present exactly when the question has a non-zero chapter id that names a chapter; then it is that chapter's known lexemes in list order. |
| ReviewGenerator.LexemeByEnglish | src/utils/reviewGenerator.ts:75-80 | The first lexeme whose translation is the answer, or none exactly when there is none. |
| ReviewGenerator.OriginalWrongAnswers | src/utils/reviewGenerator.ts:98-99 | Exactly the original options other than the answer. |
| ReviewGenerator.ReviewMultipleChoice | src/utils/reviewGenerator.ts:64-115 | Unchanged when it cannot be rebuilt. Otherwise the options are the answer plus min(3, eligible) new distractors drawn from distinct positions of the eligible pool, none an original distractor or the answer's lexeme; the id is shifted and nothing else changes. |
| ReviewGenerator.SelectForReview | src/utils/reviewGenerator.ts:143-163 | Up to five lexemes absent from the original come first, topped up with originals. min(5, n) in all. |
| ReviewGenerator.MatchingColumns | src/utils/reviewGenerator.ts:165-179 | Left is the words, right a permutation of the translations, and the pairs are rebuilt 1:1. |
| ReviewGenerator.ReviewMatching | src/utils/reviewGenerator.ts:120-180 | Unchanged when it cannot be rebuilt. Otherwise new lexemes are preferred and originals fill the shortfall; the columns and pairs are rebuilt and the id shifted. |
| ReviewGenerator.LexemeForAnswer | src/utils/reviewGenerator.ts:195-203 | The lexeme whose word equals the answer ignoring case, or none exactly when there is none. |
| ReviewGenerator.MissedRule | src/utils/reviewGenerator.ts:206-212 | The rule the missed question names, if its id is non-zero and listed. |
| ReviewGenerator.ReviewCase | src/utils/reviewGenerator.ts:206-226 | Prepositional exactly when the rule name says so. Genitive exactly when it says genitive and not prepositional. Otherwise accusative. |
| ReviewGenerator.OtherTemplatesRemain | src/utils/reviewGenerator.ts:229-240 | Excluding the original's opening leaves at least four templates. |
| ReviewGenerator.NoDupTemplates | src/utils/reviewGenerator.ts:229-238 | The five review templates open differently. |
| ReviewGenerator.FilterDropsOnlyOne | src/utils/reviewGenerator.ts:238-240 | Excluding one opening removes exactly one of distinct templates. |
| ReviewGenerator.PickReviewTemplate | src/utils/reviewGenerator.ts:237-243 | The drawn template is one of the five review templates, and its opening differs from the original sentence's. |
| ReviewGenerator.ReviewFillInBlank | src/utils/reviewGenerator.ts:185-252 | Unchanged when the answer is not a base word. Otherwise the answer is that word in the rule's case, the sentence is a different template, and the id is shifted. |
| ReviewGenerator.ReviewExercise | src/utils/reviewGenerator.ts:31-59 | The kind is kept and the id is the original or shifted. Listen-and-type and other kinds are shifted copies. A multiple choice keeps its answer. A multiple choice or matching that cannot be rebuilt comes back unchanged. One that can is exactly what ReviewMultipleChoice or ReviewMatching promise for some draw: fresh distractors or rebuilt columns, under the shifted id. A fill in the blank is the fill-in rebuild for some template draw. |
| Content.FindLexeme | src/data/content.ts:481-482 | The lexeme with the id, or none exactly when there is none. |
| Content.LexemesByIds | src/data/content.ts:480-483 | The known ids, in the order given, each with its table lexeme. |
| Content.FindModule | src/data/content.ts:487 | The module with the number, or none exactly when there is none. |
| Content.PackContribution | src/data/content.ts:493-497 | A locked or missing pack adds nothing. |
| Content.PackLexemesComeFromUnlockedPacks | src/data/content.ts:493-497 | Every pack lexeme belongs to an active, unlocked pack. |
| Content.LockedPackAddsNothing | src/data/content.ts:493-497 | Activating a locked pack changes nothing. |
| Content.LexemesByModule | src/data/content.ts:486-501 | Unknown module: none. Otherwise the module's lexemes, then each unlocked active pack's, in order. |
| Content.GetLexemesByModule | src/data/content.ts:486-501 | The loop builds what the module lookup function describes. |
| Content.ModuleSection | src/data/content.ts:506-511 | The section of the first module that has one with the id, and that module really holds it. None exactly when no module has it. |
| Content.ModuleSectionIndex | src/data/content.ts:506-511 | The index of the first module holding the section, or the module count when none does. |
| Content.ChapterSection | src/data/content.ts:513-518 | The section of the first chapter that has one with the id, and that chapter really holds it. None exactly when no chapter has it. |
| Content.ChapterSectionIndex | src/data/content.ts:513-518 | The index of the first chapter holding the section, or the chapter count when none does. |
| Content.SectionById | src/data/content.ts:504-520 | Modules are searched before chapters, and the first match wins. A section found belongs to a module or chapter in the table. None exactly when no module or chapter has the section. |
| Content.LexemesBySection | src/data/content.ts:504-520 | Unknown section: none. Otherwise its known lexemes in listed order. |
| Content.GetLexemesBySection | src/data/content.ts:504-520 | The early-return loop agrees with the lookup function. |
| Content.RulesListed | src/data/content.ts:523-528 | Exactly the rules whose id is listed. |
| Content.RulesFollowTableOrder | src/data/content.ts:523-547 | The listing order of the ids does not matter; table order decides. |
| Content.GrammarRulesByModule | src/data/content.ts:523-528 | Unknown module: none. Otherwise exactly the table rules it lists. |
| Content.GrammarRulesBySection | src/data/content.ts:531-547 | Unknown section: none. Otherwise exactly the table rules it lists. |
| Content.GetGrammarRulesBySection | src/data/content.ts:531-547 | The early-return loop agrees with the lookup function. |
| Content.LastWithId | src/data/content.ts:559 | The entry the Map keeps for an id: one with that id, and no later entry has it. |
| Content.UniqueById | src/data/content.ts:559 | One lexeme per id, in first-occurrence order. |
| Content.LearnedLexemes | src/data/content.ts:550-560 | Nothing below module 1. Otherwise every id from modules 1..n, once each. |
| Content.GetLearnedLexemes | src/data/content.ts:550-560 | The loop agrees with the learned-lexemes function. |
| Content.ChapterByNumber | src/data/content.ts:696-698 | The chapter with the number, or none exactly when there is none. |
| Content.ChaptersUpTo | src/data/content.ts:701-703 | Exactly the chapters numbered up to n, in table order. |
| Content.ChaptersUpToGrows | src/data/content.ts:701-703 | Cutting the chapters up to n down to m ≤ n gives exactly the chapters up to m, in order; so a larger bound never gives fewer chapters. |
| UserContext.AddMissed | src/context/UserContext.tsx:45-61 | Unchanged when the exercise is already missed, otherwise appended. |
| UserContext.AddMissedKeepsUnique | src/context/UserContext.tsx:45-61 | Adding keeps the exercise ids unique and leaves the exercise listed. |
| UserContext.RemoveMissed | src/context/UserContext.tsx:63-68 | The exercise is gone and every other entry stays; RemoveMissedAppend gives order and multiplicity. |
| UserContext.RemoveMissedAppend | src/context/UserContext.tsx:63-68 | Removal distributes over concatenation, and one entry is kept exactly when it is for another exercise, so the survivors keep their order and multiplicity. |
| UserContext.RemoveMissedKeepsUnique | src/context/UserContext.tsx:63-68 | Removing keeps the exercise ids unique. |
| UserContext.GroupKey | src/context/UserContext.tsx:75-76 | Every group key starts with "chapter_". |
| UserContext.GroupKeySeparatesChapters | src/context/UserContext.tsx:75-76 | Equal keys mean equal chapters; no chapter number collides with "unknown". |
| UserContext.GroupedIsPartition | src/context/UserContext.tsx:70-85 | Each group is exactly its chapter's questions in list order. There are no empty groups. |
| UserContext.ToggleVocabPack | src/context/UserContext.tsx:87-97 | The given id's membership flips and every other id's stays. An absent id is appended at the end of the unchanged list. |
| UserContext.ToggleOffAppend | src/context/UserContext.tsx:87-97 | Toggling off an active id distributes over concatenation and drops exactly its entries, each copy included; the other ids keep order and multiplicity. |
| UserContext.ToggleOffRemovesOne | src/context/UserContext.tsx:87-97 | Toggling off an id listed once removes just that entry; the other ids keep their order. |
| UserContext.ToggleTwiceRestores | src/context/UserContext.tsx:87-97 | Toggling an absent pack twice restores the list. |
| UserContext.UserStore.constructor | src/context/UserContext.tsx:25-35 | The initial progress record, with admin mode off. |
| UserContext.UserStore.UpdateCurrentModule | src/context/UserContext.tsx:37-39 | Only the current module changes. |
| UserContext.UserStore.UpdateCurrentChapter | src/context/UserContext.tsx:41-43 | Only the current chapter changes. |
| UserContext.UserStore.AddMissedQuestion | src/context/UserContext.tsx:45-61 | Only the missed list changes, as AddMissed says. |
| UserContext.UserStore.RemoveMissedQuestion | src/context/UserContext.tsx:63-68 | Only the missed list changes, as RemoveMissed says. |
| UserContext.UserStore.MissedQuestionsByAssignment | src/context/UserContext.tsx:70-85 | The loop builds the chapter grouping. |
| UserContext.UserStore.ToggleVocabPackMethod | src/context/UserContext.tsx:87-97 | Only the active packs change, by the toggle. |
| UserContext.UserStore.IncrementStreak | src/context/UserContext.tsx:99-101 | The streak grows by exactly one; nothing else changes. |
| UserContext.UserStore.CompleteModule0 | src/context/UserContext.tsx:103-105 | Only the module-0 flag is set. |
| UserContext.UserStore.ToggleAdminMode | src/context/UserContext.tsx:107-109 | Admin mode flips and the record is untouched. |
| LegacyContent.FindModule | src/data/content.js:165 | The module with the number, or none exactly when there is none. |
| LegacyContent.FindPack | src/data/content.js:172 | A pack with the id, or none exactly when there is none. |
| LegacyContent.PackLexemesComeFromUnlockedPacks | src/data/content.js:171-176 | Every pack lexeme belongs to an active, unlocked pack. |
| LegacyContent.LexemesByModule | src/data/content.js:164-179 | Unknown module: none. Otherwise a copy of the module's lexemes, then each unlocked active pack's, in order. |
| LegacyContent.GetLexemesByModule | src/data/content.js:164-179 | The loop builds what the module lookup function describes. |
| LegacyContent.GrammarRulesByModule | src/data/content.js:182-189 | Unknown module: none. Otherwise exactly the listed rules, in table order. |
| LegacyExerciseGenerator.LegacyMultipleChoice | src/utils/exerciseGenerator.js:20-39 | The answer is one lexeme's translation. The options add the translations of min(3, others) other lexemes drawn from distinct positions, 1 to 4 in all, and they contain the answer. |
| LegacyExerciseGenerator.LegacyMatching | src/utils/exerciseGenerator.js:42-61 | min(5, n) lexemes. The words are on the left, a permutation of the translations on the right, and the pairs are keyed by the left words. |
| LegacyExerciseGenerator.LegacyFillInBlank | src/utils/exerciseGenerator.js:64-90 | The answer is a lexeme's word. The opening is "Это", "Я хочу" or empty by part of speech, and the hint is the gloss. |
| LegacyExerciseGenerator.AudioOrPlaceholder | src/utils/exerciseGenerator.js:99 | A missing or empty path falls back to the placeholder; the audio is never empty. |
| LegacyExerciseGenerator.LegacyListenType | src/utils/exerciseGenerator.js:93-103 | The answer is a lexeme's word, with its audio or the placeholder. |
| LegacyExerciseGenerator.DeepKind | src/utils/exerciseGenerator.js:140-161 | Slot i is MC, matching, fill or listen by i mod 4. MC is skipped below four lexemes and matching below five. |
| LegacyExerciseGenerator.DeepKindsShape | src/utils/exerciseGenerator.js:129-163 | At most the planned count, exactly it from five lexemes up. No MC below four, no matching below five. Fill-in appears exactly from three slots. |
| LegacyExerciseGenerator.QuickBatch | src/utils/exerciseGenerator.js:116-128 | Exactly rounds exercises, numbered consecutively, each matching or fill-in, and only fill-in below five lexemes. |
| LegacyExerciseGenerator.DeepRound | src/utils/exerciseGenerator.js:144-161 | A slot yields an exercise exactly when its kind applies, with that kind and the id. |
| LegacyExerciseGenerator.DeepBatch | src/utils/exerciseGenerator.js:129-163 | The kinds follow the deep cycle and the ids are consecutive. |
| LegacyExerciseGenerator.LegacyGenerateExercises | src/utils/exerciseGenerator.js:106-166 | Empty without lexemes. Otherwise a permutation of the built batch, with distinct ids from 1000 + 100·module and every exercise answerable. Quick gives exactly 5 to 7. Deep plans 10 to 12 on the cycle. |
| LegacyUserContext.AddMissedId | src/context/UserContext.js:19-24 | The result is duplicate-free and holds the old ids plus the new one. |
| LegacyUserContext.AddMissedIdOfNoDup | src/context/UserContext.js:19-24 | On a duplicate-free list: unchanged if the id is present, else appended. |
| LegacyUserContext.RemoveMissedId | src/context/UserContext.js:26-31 | The id is gone and every other id's membership stays; RemoveMissedIdAppend gives order and multiplicity. |
| LegacyUserContext.RemoveMissedIdAppend | src/context/UserContext.js:26-31 | Removal distributes over concatenation, and one id is kept exactly when it differs, so the kept ids stay in order with their multiplicity. |
| LegacyUserContext.RemoveMissedIdOfNoDup | src/context/UserContext.js:26-31 | The list stays duplicate-free and loses exactly one entry when the id was present. |
| LegacyUserContext.LegacyUserStore.constructor | src/context/UserContext.js:6-13 | The initial record. |
| LegacyUserContext.LegacyUserStore.UpdateCurrentModule | src/context/UserContext.js:15-17 | Only the current module changes. |
| LegacyUserContext.LegacyUserStore.AddMissedQuestion | src/context/UserContext.js:19-24 | Only the id list changes, by the Set-based add. |
| LegacyUserContext.LegacyUserStore.RemoveMissedQuestion | src/context/UserContext.js:26-31 | Only the id list changes, by the filter. |
| LegacyUserContext.LegacyUserStore.ToggleVocabPackMethod | src/context/UserContext.js:33-43 | Only the active packs change, by the toggle. |
| LegacyUserContext.LegacyUserStore.IncrementStreak | src/context/UserContext.js:45-47 | The streak grows by exactly one; nothing else changes. |
| LegacyUserContext.LegacyUserStore.CompleteModule0 | src/context/UserContext.js:49-51 | Only the module-0 flag is set. |

## Left out

- The key–value store's I/O, `async`/`await` and JSON parsing. The store is a
  field of a class that says what it holds (missing, unreadable or a map).
  Awaits are sequential calls.
- `toLowerCase` is modelled for ASCII, Latin-1 capitals and the basic Cyrillic
  block (U+0400–U+042F). Other scripts are left as they are.
- `Math.random` and the random-comparator sort. A draw is specified only by
  its bound. A probability gate (0.5, 0.3, 0.2, 0.7) is a coin flip whose
  outcome may be either. `getRandomItems(xs, 1)[0]` is a pick from the list.
  The actual distributions are not modelled.
- The content tables are a parameter rather than the shipped constants. The
  properties hold for any content, including the shipped tables.
- The `default` branch of the section-type switch in the exercise generator
  (src/utils/exerciseGenerator.ts:649-654) is not modelled. Every one of the
  six section types has its own case, so no well-typed section reaches it.
- The review fill-in's fallback template, used when no other template remains,
  is not modelled. Four others always remain.
- The earlier generator's records (`leftColumn`, `audio`, `part1`, …) are mapped
  onto the current `Exercise` fields.
- Console logging and warnings.
- React rendering, the screens and components, audio and text-to-speech, the
  sentence cache, the settings context, and the dictionary-generation script.
  None of these is on the exercise path.
- Floating-point arithmetic. Nothing on the modelled path uses it beyond
  `Math.floor(Math.random() * n)`.
- ExerciseGenerator.PlainGenitiveTemplates: states that the templates are
  non-possession entries of the genitive table, not that they are exactly the
  first nine.
- RussianDictionary.GetCaseForm, RussianDictionary.Inflect and the five per-case forms (AccusativeForm to InstrumentalForm): their own ensures state only the shape of the change (how much of the stem is kept). The ending rules for every gender are stated by AccusativeEndings, PrepositionalEndings, GenitiveEndings, DativeEndings and InstrumentalEndings.
- RussianDictionary.GetNormalForm and RussianDictionary.NormalFormRule: their own ensures likewise state only the shape of the change. The rewrite for each ending is stated by NormalFormEndings.
- SentenceGenerator.GenerateSentences: it uses the corrected GenerateSentence of the first finding below. In hard mode the source reads past the list of other nouns whenever the first noun occurs more than once and the drawn index reaches the length of that list (the condition SecondNounAsWritten states). There it builds a sentence ending "в undefined". The model instead picks one of the other nouns, or builds no sentence when there is none. For example, with [читать, книга, книга, дом], first noun книга and index 1, the source ends "в undefined" where the model ends "в доме".
- SentenceGenerator.Attempt: every modelled call of generateSentence takes four draws (verb, noun, pronoun, second noun), whereas the source draws only those its difficulty uses. The bound on attempts is therefore stated as a bound on draws.
- SentenceGenerator.GenerateSentenceFromLexemes: the same correction. Its word-list fallback calls the corrected generator, so in hard mode, under the condition SecondNounAsWritten states, it never produces the source's "в undefined" sentence.
- The exception lookup `exceptions[lower]` in getGenitivePluralForm is modelled as a map lookup. The object's prototype keys (`constructor`, `toString`, …) are therefore not found as exceptions, whereas the source would return a function for them.
- Object identity and aliasing. Records are values here. The source copies
  them with spreads and never mutates a shared record on the modelled path.

## Findings

| source | as written | input that shows it | evidently intended | confidence | as-written member | corrected member |
|---|---|---|---|---|---|---|
| src/utils/sentenceGenerator.ts:78 | The second noun is `nouns.filter(n => n !== noun1)[floor(random * (nouns.length - 1))]`. The index bound counts the equal nouns the filter removed. | Words [читать, книга, книга] in hard mode: the filter leaves nothing, and the sentence ends "в undefined". | Pick among the nouns that differ from the first. Give no sentence when there is none. | not executed | SentenceGenerator.RepeatedNounSentence | SentenceGenerator.GenerateSentence |
| src/utils/russianDictionary.ts:381-384 | getNormalForm returns any word ending in -у or -ю unchanged before the noun rules at 387-394 run, so those rules can never fire. | книгу comes back as книгу; src/test/testIntegration.ts:11 expects книга. | Turn -у back into -а and -ю into -я, undoing the feminine accusative. | not executed | RussianDictionary.AccusativeIsNeverUndone | RussianDictionary.IntendedNormalFormUndoesAccusative |
