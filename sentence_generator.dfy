/**
 * The word-list sentence generator: verbs are told from nouns by their ending, and a
 * sentence of the difficulty asked for is assembled from random picks. Also the
 * lexeme-based entry point, which first tries a semantically compatible verb–noun pair.
 */
module SentenceGenerator {
  import opened Text
  import opened Seqs
  import opened Models
  import opened Random
  import opened RussianDictionary
  import opened ThemeHelper
  import opened CompatibilityStorage
  import opened SentenceCompatibility

  datatype Difficulty = Easy | Medium | Hard

  /**
   * The random choices one call of `generateSentence` may make; each is taken modulo
   * the length of the list it indexes, so every index the source can draw is covered.
   */
  datatype Picks = Picks(verb: nat, noun: nat, pronoun: nat, secondNoun: nat)

  /** A word is taken for a verb when its lower-case form ends in "ть", "ти" or "чь". */
  predicate IsVerbWord(w: string) {
    var l := Lower(w);
    EndsWith(l, "ть") || EndsWith(l, "ти") || EndsWith(l, "чь")
  }

  predicate IsNonVerbWord(w: string) {
    !IsVerbWord(w)
  }

  /** The verb-looking words, in order. */
  function Verbs(words: seq<string>): (r: seq<string>)
    ensures forall w :: w in r <==> w in words && IsVerbWord(w)
  {
    Filter(words, IsVerbWord)
  }

  function NotListedIn(list: seq<string>): string -> bool {
    w => w !in list
  }

  /** `words.filter(w => !verbs.includes(w))` */
  function Nouns(words: seq<string>): (r: seq<string>)
    ensures forall w :: w in r <==> w in words && !IsVerbWord(w)
  {
    Filter(words, NotListedIn(Verbs(words)))
  }

  /** The nouns are exactly the words that do not look like verbs, in their order. */
  lemma NounsAreTheNonVerbs(words: seq<string>)
    ensures Nouns(words) == Filter(words, IsNonVerbWord)
  {
    FilterAgrees(words, NotListedIn(Verbs(words)), IsNonVerbWord);
  }

  /** The pronouns medium and hard sentences draw from. */
  function SentencePronouns(): seq<Pronoun> {
    [Ya, Ty, On, Ona, My]
  }

  /** The hard-mode template on any four words: a single-spaced join around "в". */
  lemma HardTemplate(pronoun: string, verbForm: string, accusative: string, prepositional: string)
    ensures var s := pronoun + " " + verbForm + " " + accusative + " в " + prepositional;
      && s == Join([pronoun, verbForm, accusative, "в", prepositional], " ")
      && StartsWith(s, pronoun + " " + verbForm + " ")
      && EndsWith(s, " в " + prepositional)
  {
    var head := pronoun + " " + verbForm + " ";
    var middle := head + accusative;
    var tail := " в " + prepositional;
    Join5(pronoun, verbForm, accusative, "в", prepositional);
    assert " в " == " " + "в" + " ";
    assert middle + tail == middle + " в " + prepositional;
    assert (middle + tail)[..|head|] == head;
    EndsWithAppend(middle, tail);
  }

  /** The hard-mode template: pronoun, verb form, accusative noun, "в", prepositional noun. */
  function HardSentence(p: Pronoun, verb: string, noun1: string, noun2Form: string): (s: string)
    ensures s == Join([Capitalize(PronounWord(p)), GetVerbForm(verb, p),
                       GetCaseForm(noun1, Accusative, Some(GetNounGender(noun1))), "в", noun2Form], " ")
    ensures StartsWith(s, Capitalize(PronounWord(p)) + " " + GetVerbForm(verb, p) + " ")
    ensures EndsWith(s, " в " + noun2Form)
  {
    var pronoun := Capitalize(PronounWord(p));
    var verbForm := GetVerbForm(verb, p);
    var accusative := GetCaseForm(noun1, Accusative, Some(GetNounGender(noun1)));
    HardTemplate(pronoun, verbForm, accusative, noun2Form);
    pronoun + " " + verbForm + " " + accusative + " в " + noun2Form
  }

  /** The prepositional form of the second noun, with its gender from `getNounGender`. */
  function SecondNounForm(noun2: string): string {
    GetCaseForm(noun2, Prepositional, Some(GetNounGender(noun2)))
  }

  /**
   * `nouns.filter(n => n !== noun1)[i]` with `i` drawn below `nouns.length - 1`, as
   * written. `None` is the `undefined` read past the end of the filtered list, which
   * happens when `noun1` occurs more than once.
   */
  function SecondNounAsWritten(nouns: seq<string>, noun1: string, pick: nat): (r: Option<string>)
    requires |nouns| >= 2
    ensures r.Some? ==> r.value in nouns && r.value != noun1
    ensures r.None? <==> pick % (|nouns| - 1) >= |Filter(nouns, NotEqual(noun1))|
  {
    var others := Filter(nouns, NotEqual(noun1));
    var i := pick % (|nouns| - 1);
    if i < |others| then Some(others[i]) else None
  }

  /** All entries of `s` are one word. */
  predicate AllSame(s: seq<string>) {
    forall i :: 0 <= i < |s| ==> s[i] == s[0]
  }

  /**
   * The second noun as evidently intended: a random one of the nouns other than
   * `noun1`, and none when there is no other noun.
   */
  function SecondNoun(nouns: seq<string>, noun1: string, pick: nat): (r: Option<string>)
    requires noun1 in nouns
    ensures r.Some? ==> r.value in nouns && r.value != noun1
    ensures r.None? <==> AllSame(nouns)
  {
    var others := Filter(nouns, NotEqual(noun1));
    if others == [] then
      assert AllSame(nouns) by {
        forall i | 0 <= i < |nouns|
          ensures nouns[i] == nouns[0]
        {
          assert nouns[i] !in others && nouns[0] !in others;
        }
      }
      None
    else
      assert others[0] in nouns;
      Some(others[pick % |others|])
  }

  /** With no repeated noun the code as written and the intended choice agree. */
  lemma SecondNounAgrees(nouns: seq<string>, noun1: string, pick: nat)
    requires NoDup(nouns) && noun1 in nouns && |nouns| >= 2
    ensures SecondNounAsWritten(nouns, noun1, pick) == SecondNoun(nouns, noun1, pick)
  {
    FilterOutOne(nouns, noun1);
  }

  /** A repeated noun leaves nothing at the drawn index: the code reads `undefined`. */
  lemma RepeatedNounReadsPastTheEnd()
    ensures SecondNounAsWritten(["книга", "книга"], "книга", 0).None?
  {
    var nouns: seq<string> := ["книга", "книга"];
    assert nouns[1..][1..] == [];
    assert Filter(nouns, NotEqual("книга")) == [];
  }

  /** Easy mode: "Я" with a random verb and a random noun, else "Я" and the first verb's form. */
  function EasySentence(verbs: seq<string>, nouns: seq<string>, picks: Picks): (r: Option<string>)
    ensures r.Some? <==> |verbs| > 0
  {
    if |verbs| > 0 && |nouns| > 0 then
      Some(BuildPhrase(Ya, verbs[picks.verb % |verbs|], nouns[picks.noun % |nouns|], Accusative))
    else if |verbs| > 0 then
      Some("Я " + GetVerbForm(verbs[0], Ya))
    else None
  }

  /** Medium mode: a random pronoun, verb and noun. */
  function MediumSentence(verbs: seq<string>, nouns: seq<string>, picks: Picks): (r: Option<string>)
    ensures r.Some? <==> |verbs| > 0 && |nouns| > 0
  {
    if |verbs| > 0 && |nouns| > 0 then
      Some(BuildPhrase(SentencePronouns()[picks.pronoun % 5], verbs[picks.verb % |verbs|], nouns[picks.noun % |nouns|], Accusative))
    else None
  }

  /** Hard mode: a random pronoun and verb, a random noun, and a different second noun after "в". */
  function HardSentenceOf(verbs: seq<string>, nouns: seq<string>, picks: Picks): (r: Option<string>)
    ensures r.Some? <==> |verbs| > 0 && |nouns| >= 2 && !AllSame(nouns)
  {
    if |verbs| > 0 && |nouns| >= 2 then
      var noun1 := nouns[picks.noun % |nouns|];
      match SecondNoun(nouns, noun1, picks.secondNoun)
      case None => None
      case Some(noun2) =>
        Some(HardSentence(SentencePronouns()[picks.pronoun % 5], verbs[picks.verb % |verbs|], noun1, SecondNounForm(noun2)))
    else None
  }

  /**
   * `generateSentence(words, difficulty)`, with the hard-mode second noun chosen as
   * intended (see `GenerateSentenceAsWritten` for the code as written).
   */
  function GenerateSentence(words: seq<string>, difficulty: Difficulty, picks: Picks): (r: Option<string>)
    ensures words == [] ==> r.None?
    ensures difficulty == Easy ==> (r.Some? <==> |Verbs(words)| > 0)
    ensures difficulty == Medium ==> (r.Some? <==> |Verbs(words)| > 0 && |Nouns(words)| > 0)
    ensures difficulty == Hard ==>
      (r.Some? <==> |Verbs(words)| > 0 && |Nouns(words)| >= 2 && !AllSame(Nouns(words)))
  {
    if words == [] then None
    else
      match difficulty
      case Easy => EasySentence(Verbs(words), Nouns(words), picks)
      case Medium => MediumSentence(Verbs(words), Nouns(words), picks)
      case Hard => HardSentenceOf(Verbs(words), Nouns(words), picks)
  }

  /** `generateSentence` as written: hard mode may splice `undefined` in for the second noun. */
  function GenerateSentenceAsWritten(words: seq<string>, difficulty: Difficulty, picks: Picks): (r: Option<string>)
    ensures difficulty == Hard ==> (r.Some? <==> words != [] && |Verbs(words)| > 0 && |Nouns(words)| >= 2)
    ensures difficulty != Hard ==> r == GenerateSentence(words, difficulty, picks)
  {
    var verbs := Verbs(words);
    var nouns := Nouns(words);
    if difficulty == Hard && words != [] && |verbs| > 0 && |nouns| >= 2 then
      var noun1 := nouns[picks.noun % |nouns|];
      var noun2Form := match SecondNounAsWritten(nouns, noun1, picks.secondNoun)
        case None => "undefined"
        case Some(noun2) => SecondNounForm(noun2);
      Some(HardSentence(SentencePronouns()[picks.pronoun % 5], verbs[picks.verb % |verbs|], noun1, noun2Form))
    else if difficulty == Hard then None
    else GenerateSentence(words, difficulty, picks)
  }

  /** Easy mode with a verb and a noun: "Я", the verb's first-person form, the noun in the accusative. */
  lemma EasyPairPhrase(words: seq<string>, picks: Picks)
    requires |Verbs(words)| > 0 && |Nouns(words)| > 0
    ensures exists v, n :: (v in words && IsVerbWord(v) && n in words && !IsVerbWord(n)
      && GenerateSentence(words, Easy, picks) == Some(BuildPhrase(Ya, v, n, Accusative)))
  {
    var verbs, nouns := Verbs(words), Nouns(words);
    var v := verbs[picks.verb % |verbs|];
    var n := nouns[picks.noun % |nouns|];
    assert v in verbs && n in nouns;
    assert GenerateSentence(words, Easy, picks) == EasySentence(verbs, nouns, picks);
  }

  /** Easy mode with verbs only: every word is a verb, and the first word is conjugated after "Я". */
  lemma EasyVerbOnly(words: seq<string>, picks: Picks)
    requires words != [] && |Verbs(words)| > 0 && Nouns(words) == []
    ensures GenerateSentence(words, Easy, picks) == Some("Я " + GetVerbForm(words[0], Ya))
  {
    assert forall w :: w in words ==> IsVerbWord(w);
    FilterKeepsAll(words, IsVerbWord);
  }

  /** Medium mode: one of the five pronouns, a verb and a noun of the list, noun in the accusative. */
  lemma MediumPhrase(words: seq<string>, picks: Picks)
    requires |Verbs(words)| > 0 && |Nouns(words)| > 0
    ensures exists p, v, n :: (p in SentencePronouns() && v in words && IsVerbWord(v) && n in words && !IsVerbWord(n)
      && GenerateSentence(words, Medium, picks) == Some(BuildPhrase(p, v, n, Accusative)))
  {
    var verbs, nouns := Verbs(words), Nouns(words);
    var p := SentencePronouns()[picks.pronoun % 5];
    var v := verbs[picks.verb % |verbs|];
    var n := nouns[picks.noun % |nouns|];
    assert v in verbs && n in nouns;
    assert GenerateSentence(words, Medium, picks) == MediumSentence(verbs, nouns, picks);
  }

  /** Hard mode names two different nouns of the list, the second after "в" in the prepositional. */
  lemma HardPhrase(words: seq<string>, picks: Picks)
    requires GenerateSentence(words, Hard, picks).Some?
    ensures exists p, v, n1, n2 :: (p in SentencePronouns() && v in words && IsVerbWord(v)
      && n1 in words && !IsVerbWord(n1) && n2 in words && !IsVerbWord(n2) && n1 != n2
      && GenerateSentence(words, Hard, picks) == Some(HardSentence(p, v, n1, SecondNounForm(n2))))
  {
    var verbs, nouns := Verbs(words), Nouns(words);
    assert GenerateSentence(words, Hard, picks) == HardSentenceOf(verbs, nouns, picks);
    var p := SentencePronouns()[picks.pronoun % 5];
    var v := verbs[picks.verb % |verbs|];
    var n1 := nouns[picks.noun % |nouns|];
    var n2 := SecondNoun(nouns, n1, picks.secondNoun).value;
    assert v in verbs && n1 in nouns && n2 in nouns;
    assert p in SentencePronouns() && v in words && IsVerbWord(v);
    assert n1 in words && !IsVerbWord(n1) && n2 in words && !IsVerbWord(n2) && n1 != n2;
    assert HardSentenceOf(verbs, nouns, picks) == Some(HardSentence(p, v, n1, SecondNounForm(n2)));
  }

  /** The example words split into one verb and a repeated noun. */
  lemma RepeatedNounWords()
    ensures Verbs(["читать", "книга", "книга"]) == ["читать"]
    ensures Nouns(["читать", "книга", "книга"]) == ["книга", "книга"]
  {
    var words: seq<string> := ["читать", "книга", "книга"];
    ReadIsAVerb();
    BookIsNotAVerb();
    assert words[1..] == ["книга", "книга"];
    assert words[1..][1..] == ["книга"];
    assert words[1..][1..][1..] == [];
  }

  /**
   * As written, "читать книга книга" in hard mode yields a sentence ending in
   * "в undefined"; the intended generator gives no sentence for it.
   */
  lemma RepeatedNounSentence()
    ensures GenerateSentenceAsWritten(["читать", "книга", "книга"], Hard, Picks(0, 0, 0, 0)).Some?
    ensures EndsWith(GenerateSentenceAsWritten(["читать", "книга", "книга"], Hard, Picks(0, 0, 0, 0)).value, " в undefined")
    ensures GenerateSentence(["читать", "книга", "книга"], Hard, Picks(0, 0, 0, 0)).None?
  {
    var words: seq<string> := ["читать", "книга", "книга"];
    var nouns: seq<string> := ["книга", "книга"];
    RepeatedNounWords();
    RepeatedNounReadsPastTheEnd();
    assert nouns[0 % |nouns|] == "книга";
    assert AllSame(nouns);
    var r := GenerateSentenceAsWritten(words, Hard, Picks(0, 0, 0, 0));
    assert r == Some(HardSentence(Ya, "читать", "книга", "undefined"));
    UndefinedSuffix();
  }

  lemma UndefinedSuffix()
    ensures " в " + "undefined" == " в undefined"
  {
  }

  lemma ReadIsAVerb()
    ensures IsVerbWord("читать")
  {
    var l := Lower("читать");
    assert l == "читать";
    assert l[|l| - 2..] == "ть";
  }

  lemma BookIsNotAVerb()
    ensures !IsVerbWord("книга")
  {
    var l := Lower("книга");
    assert l == "книга";
    assert l[|l| - 1] == 'а';
  }

  lemma WatchIsAVerb()
    ensures IsVerbWord("смотреть")
  {
    var l := Lower("смотреть");
    assert l == "смотреть";
    assert l[|l| - 2..] == "ть";
  }

  /** The words `extractWords` drops besides empty tokens. */
  function Prepositions(): seq<string> {
    ["в", "на", "с", "к", "от", "для", "о", "об"]
  }

  predicate IsContentWord(w: string) {
    |w| > 0 && Lower(w) !in Prepositions()
  }

  /** `.map(w => w.trim())` */
  function TrimAll(ws: seq<string>): (r: seq<string>)
    ensures |r| == |ws| && forall i :: 0 <= i < |ws| ==> r[i] == Trim(ws[i])
  {
    seq(|ws|, i requires 0 <= i < |ws| => Trim(ws[i]))
  }

  /** `extractWords(sentence)`: the white-space separated tokens that are not empty and not prepositions, in order. */
  function ExtractWords(sentence: string): (r: seq<string>)
    ensures sentence == [] ==> r == []
    ensures forall w :: w in r ==> w != [] && Lower(w) !in Prepositions()
  {
    if sentence == [] then [] else Filter(TrimAll(SplitWhitespace(sentence)), IsContentWord)
  }

  /** Words without white space are their own trim. */
  lemma TrimAllOfTrimmed(words: seq<string>)
    requires forall k :: 0 <= k < |words| ==> NoWhitespace(words[k])
    ensures TrimAll(words) == words
  {
    forall k | 0 <= k < |words|
      ensures Trim(words[k]) == words[k]
    {
      if words[k] != [] {
        assert !IsWhitespace(words[k][0]) && !IsWhitespace(words[k][|words[k]| - 1]);
      }
      TrimOfTrimmed(words[k]);
    }
  }

  /**
   * Extracting the words of a single-spaced sentence keeps every word that is not a
   * preposition, in order, and drops the prepositions.
   */
  lemma ExtractWordsOfSentence(words: seq<string>)
    requires |words| >= 1
    requires forall k :: 0 <= k < |words| ==> words[k] != [] && NoWhitespace(words[k])
    ensures ExtractWords(Join(words, " ")) == Filter(words, IsContentWord)
  {
    var sentence := Join(words, " ");
    assert sentence != [] by {
      JoinStartsWithFirst(words);
    }
    assert SplitWhitespace(sentence) == words by {
      SplitJoinedWords(words);
    }
    assert TrimAll(words) == words by {
      TrimAllOfTrimmed(words);
    }
    ExtractWordsSteps(sentence, words);
  }

  /** Extracting the words of a single-spaced sentence of content words gives those words back. */
  lemma ExtractWordsOfJoin(words: seq<string>)
    requires |words| >= 1
    requires forall k :: 0 <= k < |words| ==> NoWhitespace(words[k]) && IsContentWord(words[k])
    ensures ExtractWords(Join(words, " ")) == words
  {
    ExtractWordsOfSentence(words);
    FilterKeepsAll(words, IsContentWord);
  }

  /** "Я живу в доме" loses its preposition. */
  lemma ExtractWordsDropsPreposition()
    ensures ExtractWords("Я живу в доме") == ["Я", "живу", "доме"]
  {
    var words := HomeSentence();
    ExtractWordsOfSentence(words);
  }

  /** The words of "Я живу в доме": non-empty, free of white space, joined by single spaces. */
  lemma HomeSentence() returns (words: seq<string>)
    ensures words == ["Я", "живу", "в", "доме"]
    ensures forall k :: 0 <= k < |words| ==> words[k] != [] && NoWhitespace(words[k])
    ensures Join(words, " ") == "Я живу в доме"
    ensures Filter(words, IsContentWord) == ["Я", "живу", "доме"]
  {
    words := ["Я", "живу", "в", "доме"];
    Join4("Я", "живу", "в", "доме");
    HomeSentenceFilter(words);
    HomeSentenceTokens(words);
  }

  lemma HomeSentenceTokens(words: seq<string>)
    requires words == ["Я", "живу", "в", "доме"]
    ensures forall k :: 0 <= k < |words| ==> words[k] != [] && NoWhitespace(words[k])
  {
    assert NoWhitespace("Я") && NoWhitespace("в");
    assert NoWhitespace("живу") && NoWhitespace("доме");
  }

  lemma HomeSentenceFilter(words: seq<string>)
    requires words == ["Я", "живу", "в", "доме"]
    ensures Filter(words, IsContentWord) == ["Я", "живу", "доме"]
  {
    HomeSentenceWords();
    var w1, w2, w3 := words[1..], words[1..][1..], words[1..][1..][1..];
    assert w1 == ["живу", "в", "доме"] && w2 == ["в", "доме"] && w3 == ["доме"];
    assert Filter(w3, IsContentWord) == ["доме"] by {
      assert w3[1..] == [];
    }
    assert Filter(w2, IsContentWord) == ["доме"];
    assert Filter(w1, IsContentWord) == ["живу", "доме"];
  }

  lemma HomeSentenceWords()
    ensures IsContentWord("Я") && IsContentWord("живу") && !IsContentWord("в") && IsContentWord("доме")
  {
    assert Lower("Я") == "я";
    assert Lower("в") == "в";
    assert |Lower("живу")| == 4 && |Lower("доме")| == 4;
  }

  /** Splitting a single-spaced join of non-empty words without white space gives the words back. */
  lemma SplitJoinedWords(words: seq<string>)
    requires |words| >= 1
    requires forall k :: 0 <= k < |words| ==> words[k] != [] && NoWhitespace(words[k])
    ensures SplitWhitespace(Join(words, " ")) == words
  {
    SplitWhitespaceJoin(words, []);
    assert [] + words[0] == words[0];
    assert [words[0]] + words[1..] == words;
  }

  lemma ExtractWordsSteps(sentence: string, words: seq<string>)
    requires sentence != [] && SplitWhitespace(sentence) == words
    requires TrimAll(words) == words
    ensures ExtractWords(sentence) == Filter(words, IsContentWord)
  {
  }

  /** `vocab.some(...)` over the verb test. */
  predicate HasVerb(vocab: seq<string>) {
    exists w :: w in vocab && IsVerbWord(w)
  }

  /** `canGenerateSentences(vocab)` */
  function CanGenerateSentences(vocab: seq<string>): (r: bool)
    ensures r <==> |vocab| >= 2 && |Verbs(vocab)| > 0 && |Nouns(vocab)| > 0
  {
    if |vocab| < 2 then false
    else
      var hasVerb := HasVerb(vocab);
      var hasNoun := exists w :: w in vocab && (!hasVerb || !IsVerbWord(w));
      assert |Verbs(vocab)| > 0 ==> Verbs(vocab)[0] in Verbs(vocab);
      assert |Nouns(vocab)| > 0 ==> Nouns(vocab)[0] in Nouns(vocab);
      hasVerb && hasNoun
  }

  /** When the vocabulary is sufficient, easy and medium generation always yields a sentence. */
  lemma SufficientVocabularyGenerates(vocab: seq<string>, difficulty: Difficulty, picks: Picks)
    requires CanGenerateSentences(vocab) && difficulty != Hard
    ensures GenerateSentence(vocab, difficulty, picks).Some?
  {
  }

  /** The vocabulary of the integration example is sufficient. */
  lemma ExampleVocabularyIsSufficient()
    ensures CanGenerateSentences(["читать", "книга", "смотреть", "фильм"])
  {
    var vocab: seq<string> := ["читать", "книга", "смотреть", "фильм"];
    ReadIsAVerb();
    BookIsNotAVerb();
    assert "читать" in Verbs(vocab) && "книга" in Nouns(vocab);
  }

  /** `s` is a sentence `generateSentence` can give for these words at this difficulty. */
  ghost predicate Generable(words: seq<string>, difficulty: Difficulty, s: string) {
    exists picks :: GenerateSentence(words, difficulty, picks) == Some(s)
  }

  /** Draws the picks of one `generateSentence` call. */
  method DrawPicks(rng: RandomSource) returns (picks: Picks)
    modifies rng
    ensures rng.drawn == old(rng.drawn) + 4
  {
    var v := rng.Next();
    var n := rng.Next();
    var p := rng.Next();
    var n2 := rng.Next();
    picks := Picks(v, n, p, n2);
  }

  /**
   * `generateSentences(words, count, difficulty)`: up to `count` distinct sentences from at
   * most `3 * count` attempts, none when the vocabulary is insufficient. Each attempt draws
   * four numbers, so the draws count the attempts.
   */
  method GenerateSentences(words: seq<string>, count: int, difficulty: Difficulty, rng: RandomSource)
    returns (sentences: seq<string>)
    modifies rng
    ensures !CanGenerateSentences(words) ==> sentences == []
    ensures |sentences| <= (if count < 0 then 0 else count)
    ensures NoDup(sentences)
    ensures forall s :: s in sentences ==> Generable(words, difficulty, s)
    ensures CanGenerateSentences(words) && difficulty != Hard && count >= 1 ==> |sentences| >= 1
    ensures (rng.drawn - old(rng.drawn)) % 4 == 0
    ensures rng.drawn - old(rng.drawn) <= 4 * (3 * (if count < 0 then 0 else count))
  {
    if !CanGenerateSentences(words) {
      return [];
    }
    sentences := [];
    var maxAttempts := count * 3;
    var attempts := 0;
    while |sentences| < count && attempts < maxAttempts
      invariant rng.drawn == old(rng.drawn) + 4 * attempts
      invariant 0 <= attempts <= (if maxAttempts < 0 then 0 else maxAttempts)
      invariant |sentences| <= (if count < 0 then 0 else count)
      invariant NoDup(sentences)
      invariant forall s :: s in sentences ==> Generable(words, difficulty, s)
      invariant difficulty != Hard && attempts > 0 ==> |sentences| >= 1
      decreases maxAttempts - attempts
    {
      sentences := Attempt(words, difficulty, sentences, rng);
      attempts := attempts + 1;
    }
  }

  /** One attempt of `generateSentences`: four draws, and the sentence kept when it is new. */
  method Attempt(words: seq<string>, difficulty: Difficulty, sentences: seq<string>, rng: RandomSource)
    returns (next: seq<string>)
    requires CanGenerateSentences(words)
    requires NoDup(sentences) && forall s :: s in sentences ==> Generable(words, difficulty, s)
    modifies rng
    ensures rng.drawn == old(rng.drawn) + 4
    ensures NoDup(next) && forall s :: s in next ==> Generable(words, difficulty, s)
    ensures |sentences| <= |next| <= |sentences| + 1
    ensures difficulty != Hard ==> |next| >= 1
  {
    var picks := DrawPicks(rng);
    var sentence := GenerateSentence(words, difficulty, picks);
    if difficulty != Hard {
      SufficientVocabularyGenerates(words, difficulty, picks);
    }
    next := sentences;
    if sentence.Some? && sentence.value !in sentences {
      assert Generable(words, difficulty, sentence.value);
      next := sentences + [sentence.value];
    }
  }

  // ---------------------------------------------------------------------
  // From lexemes.

  function ListedIn(ids: seq<int>): VocabPack -> bool {
    (p: VocabPack) => p.packId in ids
  }

  /** The packs whose ids are active, in pack order; none unless both lists are given. */
  function ActivePacks(vocabPacks: Option<seq<VocabPack>>, activePackIds: Option<seq<int>>): (r: seq<VocabPack>)
    ensures forall p :: p in r <==>
      vocabPacks.Some? && activePackIds.Some? && p in vocabPacks.value && p.packId in activePackIds.value
  {
    if vocabPacks.Some? && activePackIds.Some? then Filter(vocabPacks.value, ListedIn(activePackIds.value)) else []
  }

  /** The theme sources `findCompatiblePair` is given: maps built from the active packs. */
  function PairContext(active: seq<VocabPack>): ThemeContext {
    ThemeContext(Some(PackThemeMap(active)), Some(active), Some(LexemeToPackMap(active)))
  }

  predicate IsVerbLexeme(l: Lexeme) {
    l.partOfSpeech == VERB
  }

  predicate IsNounLexeme(l: Lexeme) {
    l.partOfSpeech == NOUN
  }

  /** `s` is the "Я …" phrase of a compatible verb and noun among the lexemes. */
  ghost predicate PairPhrase(lexemes: seq<Lexeme>, ctx: ThemeContext, stored: map<string, bool>, s: string) {
    exists v, n :: (v in lexemes && IsVerbLexeme(v) && n in lexemes && IsNounLexeme(n)
      && IsCompatible(v, n, ctx, stored)
      && s == BuildPhrase(Ya, v.russianWord, n.russianWord, Accusative))
  }

  /** Some verb and noun among the lexemes are compatible. */
  ghost predicate HasCompatiblePair(lexemes: seq<Lexeme>, ctx: ThemeContext, stored: map<string, bool>) {
    exists v, n :: v in lexemes && IsVerbLexeme(v) && n in lexemes && IsNounLexeme(n) && IsCompatible(v, n, ctx, stored)
  }

  /**
   * `generateSentenceFromLexemes(lexemes, difficulty, vocabPacks, activePackIds)`: the
   * phrase of a compatible pair when there is one, otherwise `generateSentence` on the
   * Russian words.
   */
  method GenerateSentenceFromLexemes(lexemes: seq<Lexeme>, difficulty: Difficulty,
                                     vocabPacks: Option<seq<VocabPack>>, activePackIds: Option<seq<int>>,
                                     store: CompatibilityStore, rng: RandomSource)
    returns (r: Option<string>)
    modifies rng
    ensures lexemes == [] ==> r.None?
    ensures HasCompatiblePair(lexemes, PairContext(ActivePacks(vocabPacks, activePackIds)), store.Load()) ==>
      r.Some? && PairPhrase(lexemes, PairContext(ActivePacks(vocabPacks, activePackIds)), store.Load(), r.value)
    ensures r.Some? ==>
      PairPhrase(lexemes, PairContext(ActivePacks(vocabPacks, activePackIds)), store.Load(), r.value)
      || Generable(RussianWords(lexemes), difficulty, r.value)
  {
    if lexemes == [] {
      return None;
    }
    var verbs := Filter(lexemes, IsVerbLexeme);
    var nouns := Filter(lexemes, IsNounLexeme);
    var active := ActivePacks(vocabPacks, activePackIds);
    ghost var ctx := PairContext(active);
    if |verbs| > 0 && |nouns| > 0 {
      var packThemes := BuildPackThemeMap(active);
      var lexemeToPack := BuildLexemeToPackMap(active);
      var pair := FindCompatiblePair(verbs, nouns, ThemeContext(Some(packThemes), Some(active), Some(lexemeToPack)), store, rng);
      if pair.Some? {
        r := Some(BuildPhrase(Ya, pair.value.verb.russianWord, pair.value.noun.russianWord, Accusative));
        assert PairPhrase(lexemes, ctx, store.Load(), r.value) by {
          assert pair.value.verb in verbs && pair.value.noun in nouns;
        }
        return;
      }
    }
    assert !HasCompatiblePair(lexemes, ctx, store.Load());
    var picks := DrawPicks(rng);
    r := GenerateSentence(RussianWords(lexemes), difficulty, picks);
  }
}
