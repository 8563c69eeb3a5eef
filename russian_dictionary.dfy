/**
 * Rule-based Russian morphology: noun case forms, present-tense verb forms,
 * three-word phrases, gender from the ending, genitive plural, and a rough
 * reversal of case forms. Every rule looks at the lower-cased, trimmed word and
 * rewrites the trimmed word, so the original capitalisation of the stem survives.
 */
module RussianDictionary {
  import opened Text
  import opened Models
  import Seqs

  datatype Case = Nominative | GenitiveCase | Dative | Accusative | Instrumental | Prepositional

  datatype Pronoun = Ya | Ty | On | Ona | Ono | My | Vy | Oni

  function PronounWord(p: Pronoun): string {
    match p
    case Ya => "я"
    case Ty => "ты"
    case On => "он"
    case Ona => "она"
    case Ono => "оно"
    case My => "мы"
    case Vy => "вы"
    case Oni => "они"
  }

  /** Grammatical person and number: он, она and оно share the third person singular. */
  function PersonNumber(p: Pronoun): nat {
    match p
    case Ya => 1
    case Ty => 2
    case On => 3
    case Ona => 3
    case Ono => 3
    case My => 4
    case Vy => 5
    case Oni => 6
  }

  /** `t.slice(0, -k)` */
  function Chop(t: string, k: nat): string
    requires k <= |t|
  {
    t[..|t| - k]
  }

  /** The gender the endings suggest: -а/-я feminine, -о/-е neuter, anything else masculine. */
  function InferGender(lower: string): Gender {
    if EndsWith(lower, "а") || EndsWith(lower, "я") then FEMININE
    else if EndsWith(lower, "о") || EndsWith(lower, "е") then NEUTER
    else MASCULINE
  }

  /**
   * `r` is `t` with at most its last `k` characters rewritten and nothing shortened
   * beyond them: the stem survives.
   */
  predicate KeepsStem(t: string, r: string, k: nat) {
    |t| - k <= |r| && forall i :: 0 <= i < |t| - k ==> r[i] == t[i]
  }

  predicate EndsInLetter(r: string) {
    r != [] && !IsWhitespace(r[|r| - 1])
  }

  /** `r` is `t` with at most its last `k` letters replaced by at least as many letters. */
  predicate Rewrites(t: string, r: string, k: nat) {
    KeepsStem(t, r, k) && |r| >= |t| && EndsInLetter(r)
  }

  // ---------------------------------------------------------------------
  // Noun cases; `t` is the trimmed noun, `l` its lower-case form.

  /** `t.slice(0, -k) + e`: the last `k` letters of `t` respelled as `e`. */
  function Respell(t: string, k: nat, e: string): (r: string)
    requires k <= |t|
    ensures |r| == |t| - k + |e| && forall i :: 0 <= i < |t| - k ==> r[i] == t[i]
    ensures e != [] ==> r[|r| - 1] == e[|e| - 1]
  {
    Chop(t, k) + e
  }

  function AccusativeForm(t: string, l: string, g: Gender): (r: string)
    requires |t| == |l| && EndsInLetter(t)
    ensures Rewrites(t, r, 1)
  {
    if g == FEMININE then
      if EndsWith(l, "а") then Respell(t, 1, "у")
      else if EndsWith(l, "я") then Respell(t, 1, "ю")
      else t
    else t
  }

  function PrepositionalForm(t: string, l: string, g: Gender): (r: string)
    requires |t| == |l| && EndsInLetter(t)
    ensures Rewrites(t, r, 2)
  {
    if g == FEMININE then
      if EndsWith(l, "ия") then Respell(t, 2, "ии")
      else if EndsWith(l, "а") then Respell(t, 1, "е")
      else if EndsWith(l, "я") then Respell(t, 1, "е")
      else if EndsWith(l, "ь") then Respell(t, 1, "и")
      else t
    else if EndsWith(l, "й") then Respell(t, 1, "е")
    else if EndsWith(l, "ь") then Respell(t, 1, "и")
    else Respell(t, 0, "е")
  }

  function GenitiveForm(t: string, l: string, g: Gender): (r: string)
    requires |t| == |l| && EndsInLetter(t)
    ensures Rewrites(t, r, 1)
  {
    match g
    case FEMININE =>
      if EndsWith(l, "а") then Respell(t, 1, "ы")
      else if EndsWith(l, "я") then Respell(t, 1, "и")
      else if EndsWith(l, "ь") then Respell(t, 1, "и")
      else t
    case MASCULINE =>
      if EndsWith(l, "й") || EndsWith(l, "ь") then Respell(t, 1, "я") else Respell(t, 0, "а")
    case NEUTER =>
      if EndsWith(l, "о") then Respell(t, 1, "а")
      else if EndsWith(l, "е") then Respell(t, 1, "я")
      else t
  }

  function DativeForm(t: string, l: string, g: Gender): (r: string)
    requires |t| == |l| && EndsInLetter(t)
    ensures Rewrites(t, r, 1)
  {
    if g == FEMININE then
      if EndsWith(l, "а") || EndsWith(l, "я") then Respell(t, 1, "е")
      else if EndsWith(l, "ь") then Respell(t, 1, "и")
      else t
    else if EndsWith(l, "й") || EndsWith(l, "ь") then Respell(t, 1, "ю")
    else Respell(t, 0, "у")
  }

  function InstrumentalForm(t: string, l: string, g: Gender): (r: string)
    requires |t| == |l| && EndsInLetter(t)
    ensures Rewrites(t, r, 1)
  {
    if g == FEMININE then
      if EndsWith(l, "а") then Respell(t, 1, "ой")
      else if EndsWith(l, "я") then Respell(t, 1, "ей")
      else if EndsWith(l, "ь") then Respell(t, 0, "ю")
      else t
    else if EndsWith(l, "й") || EndsWith(l, "ь") then Respell(t, 1, "ем")
    else Respell(t, 0, "ом")
  }

  /**
   * `getCaseForm(noun, caseType, gender?)`. A blank noun comes back unchanged; otherwise
   * the form is the trimmed noun with only its ending rewritten (only the feminine
   * -ия prepositional touches the last two letters), and it ends in a letter.
   */
  function GetCaseForm(noun: string, caseType: Case, gender: Option<Gender>): (r: string)
    ensures IsBlank(noun) ==> r == noun
    ensures !IsBlank(noun) ==> Rewrites(Trim(noun), r, 2)
    ensures !IsBlank(noun) && caseType != Prepositional ==> Rewrites(Trim(noun), r, 1)
    ensures !IsBlank(noun) && caseType == Nominative ==> r == Trim(noun)
  {
    if IsBlank(noun) then noun
    else
      var t := Trim(noun);
      var l := Lower(t);
      Inflect(t, l, caseType, if gender.Some? then gender.value else InferGender(l))
  }

  /** The case rules proper, on the trimmed noun `t`, its lower-case form `l` and the gender. */
  function Inflect(t: string, l: string, caseType: Case, g: Gender): (r: string)
    requires |t| == |l| && EndsInLetter(t)
    ensures Rewrites(t, r, 2)
    ensures caseType != Prepositional ==> Rewrites(t, r, 1)
  {
    match caseType
    case Nominative => t
    case Accusative => AccusativeForm(t, l, g)
    case Prepositional => PrepositionalForm(t, l, g)
    case GenitiveCase => GenitiveForm(t, l, g)
    case Dative => DativeForm(t, l, g)
    case Instrumental => InstrumentalForm(t, l, g)
  }

  /** A word without surrounding white space is inflected as it stands. */
  lemma CaseFormOfTrimmed(noun: string, caseType: Case, gender: Option<Gender>)
    requires noun != [] && !IsWhitespace(noun[0]) && !IsWhitespace(noun[|noun| - 1])
    ensures GetCaseForm(noun, caseType, gender)
      == Inflect(noun, Lower(noun), caseType, if gender.Some? then gender.value else InferGender(Lower(noun)))
  {
    TrimOfTrimmed(noun);
  }

  /** A lower-case form ends in the one letter `c` exactly when its last letter is `c`. */
  lemma EndsWithLetter(l: string, c: char)
    ensures EndsWith(l, [c]) <==> l != [] && l[|l| - 1] == c
  {
    if l != [] && l[|l| - 1] == c {
      assert l[|l| - 1..] == [c];
    }
  }

  /**
   * The accusative, for every non-blank noun and gender: a feminine noun in -а takes -у and
   * one in -я takes -ю; every other noun (masculine and neuter are taken as inanimate) is the
   * trimmed nominative.
   */
  lemma AccusativeEndings(noun: string, g: Gender)
    requires !IsBlank(noun)
    ensures var t := Trim(noun); var l := Lower(t); var r := GetCaseForm(noun, Accusative, Some(g));
      && (g == FEMININE && EndsWith(l, "а") ==> r == Chop(t, 1) + "у")
      && (g == FEMININE && EndsWith(l, "я") ==> r == Chop(t, 1) + "ю")
      && (g != FEMININE || !(EndsWith(l, "а") || EndsWith(l, "я")) ==> r == t)
  {
    var l := Lower(Trim(noun));
    EndsWithLetter(l, 'а');
    EndsWithLetter(l, 'я');
  }

  /**
   * The prepositional. Feminine: -ия takes -ии (checked before -я), -а and -я take -е, -ь
   * takes -и, any other ending is kept. Masculine and neuter: -й takes -е, -ь takes -и, and
   * anything else gains -е.
   */
  lemma PrepositionalEndings(noun: string, g: Gender)
    requires !IsBlank(noun)
    ensures var t := Trim(noun); var l := Lower(t); var r := GetCaseForm(noun, Prepositional, Some(g));
      && (g == FEMININE && EndsWith(l, "ия") ==> r == Chop(t, 2) + "ии")
      && (g == FEMININE && EndsWith(l, "а") ==> r == Chop(t, 1) + "е")
      && (g == FEMININE && EndsWith(l, "я") && !EndsWith(l, "ия") ==> r == Chop(t, 1) + "е")
      && (g == FEMININE && EndsWith(l, "ь") ==> r == Chop(t, 1) + "и")
      && (g == FEMININE && !(EndsWith(l, "а") || EndsWith(l, "я") || EndsWith(l, "ь")) ==> r == t)
      && (g != FEMININE && EndsWith(l, "й") ==> r == Chop(t, 1) + "е")
      && (g != FEMININE && EndsWith(l, "ь") ==> r == Chop(t, 1) + "и")
      && (g != FEMININE && !(EndsWith(l, "й") || EndsWith(l, "ь")) ==> r == t + "е")
  {
    var l := Lower(Trim(noun));
    EndsWithLetter(l, 'а');
    EndsWithLetter(l, 'я');
    EndsWithLetter(l, 'ь');
    EndsWithLetter(l, 'й');
    if EndsWith(l, "ия") {
      assert l[|l| - 2..][1] == l[|l| - 1];
    }
  }

  /**
   * The genitive singular. Feminine: -а takes -ы, -я and -ь take -и, any other ending is kept.
   * Masculine: -й and -ь take -я, anything else gains -а. Neuter: -о takes -а, -е takes -я,
   * any other ending is kept.
   */
  lemma GenitiveEndings(noun: string, g: Gender)
    requires !IsBlank(noun)
    ensures var t := Trim(noun); var l := Lower(t); var r := GetCaseForm(noun, GenitiveCase, Some(g));
      && (g == FEMININE && EndsWith(l, "а") ==> r == Chop(t, 1) + "ы")
      && (g == FEMININE && (EndsWith(l, "я") || EndsWith(l, "ь")) ==> r == Chop(t, 1) + "и")
      && (g == FEMININE && !(EndsWith(l, "а") || EndsWith(l, "я") || EndsWith(l, "ь")) ==> r == t)
      && (g == MASCULINE && (EndsWith(l, "й") || EndsWith(l, "ь")) ==> r == Chop(t, 1) + "я")
      && (g == MASCULINE && !(EndsWith(l, "й") || EndsWith(l, "ь")) ==> r == t + "а")
      && (g == NEUTER && EndsWith(l, "о") ==> r == Chop(t, 1) + "а")
      && (g == NEUTER && EndsWith(l, "е") ==> r == Chop(t, 1) + "я")
      && (g == NEUTER && !(EndsWith(l, "о") || EndsWith(l, "е")) ==> r == t)
  {
    var l := Lower(Trim(noun));
    EndsWithLetter(l, 'а');
    EndsWithLetter(l, 'я');
    EndsWithLetter(l, 'ь');
    EndsWithLetter(l, 'о');
    EndsWithLetter(l, 'е');
  }

  /**
   * The dative. Feminine: -а and -я take -е, -ь takes -и, any other ending is kept.
   * Masculine and neuter: -й and -ь take -ю, anything else gains -у.
   */
  lemma DativeEndings(noun: string, g: Gender)
    requires !IsBlank(noun)
    ensures var t := Trim(noun); var l := Lower(t); var r := GetCaseForm(noun, Dative, Some(g));
      && (g == FEMININE && (EndsWith(l, "а") || EndsWith(l, "я")) ==> r == Chop(t, 1) + "е")
      && (g == FEMININE && EndsWith(l, "ь") ==> r == Chop(t, 1) + "и")
      && (g == FEMININE && !(EndsWith(l, "а") || EndsWith(l, "я") || EndsWith(l, "ь")) ==> r == t)
      && (g != FEMININE && (EndsWith(l, "й") || EndsWith(l, "ь")) ==> r == Chop(t, 1) + "ю")
      && (g != FEMININE && !(EndsWith(l, "й") || EndsWith(l, "ь")) ==> r == t + "у")
  {
    var l := Lower(Trim(noun));
    EndsWithLetter(l, 'а');
    EndsWithLetter(l, 'я');
    EndsWithLetter(l, 'ь');
  }

  /**
   * The instrumental. Feminine: -а takes -ой, -я takes -ей, -ь gains -ю, any other ending is
   * kept. Masculine and neuter: -й and -ь take -ем, anything else gains -ом.
   */
  lemma InstrumentalEndings(noun: string, g: Gender)
    requires !IsBlank(noun)
    ensures var t := Trim(noun); var l := Lower(t); var r := GetCaseForm(noun, Instrumental, Some(g));
      && (g == FEMININE && EndsWith(l, "а") ==> r == Chop(t, 1) + "ой")
      && (g == FEMININE && EndsWith(l, "я") ==> r == Chop(t, 1) + "ей")
      && (g == FEMININE && EndsWith(l, "ь") ==> r == t + "ю")
      && (g == FEMININE && !(EndsWith(l, "а") || EndsWith(l, "я") || EndsWith(l, "ь")) ==> r == t)
      && (g != FEMININE && (EndsWith(l, "й") || EndsWith(l, "ь")) ==> r == Chop(t, 1) + "ем")
      && (g != FEMININE && !(EndsWith(l, "й") || EndsWith(l, "ь")) ==> r == t + "ом")
  {
    var l := Lower(Trim(noun));
    EndsWithLetter(l, 'а');
    EndsWithLetter(l, 'я');
    EndsWithLetter(l, 'ь');
  }

  /** `getNounGender(noun)`: the empty string is masculine; otherwise the ending decides. */
  function GetNounGender(noun: string): (g: Gender)
    ensures g == InferGender(Lower(Trim(noun)))
  {
    if noun == [] then
      assert |Lower(Trim(noun))| == 0;
      MASCULINE
    else
      LowerTrimCommute(noun);
      InferGender(Trim(Lower(noun)))
  }

  /** Leaving the gender out is the same as passing the gender `getNounGender` infers. */
  lemma OmittedGenderIsInferred(noun: string, caseType: Case)
    ensures GetCaseForm(noun, caseType, None) == GetCaseForm(noun, caseType, Some(GetNounGender(noun)))
  {
  }

  /** Masculine and neuter nouns are treated as inanimate: the accusative is the nominative. */
  lemma AccusativeOfMasculineAndNeuter(noun: string, g: Gender)
    requires g != FEMININE
    ensures GetCaseForm(noun, Accusative, Some(g)) == GetCaseForm(noun, Nominative, Some(g))
  {
  }

  // ---------------------------------------------------------------------
  // Verbs.

  /** -ю, -ешь, -ет, -ем, -ете, -ют; also the fallback table for every other verb. */
  function FirstConjugationEnding(p: Pronoun): string {
    match p
    case Ya => "ю"
    case Ty => "ешь"
    case On => "ет"
    case Ona => "ет"
    case Ono => "ет"
    case My => "ем"
    case Vy => "ете"
    case Oni => "ют"
  }

  /** -ю, -ишь, -ит, -им, -ите, -ят */
  function SecondConjugationEnding(p: Pronoun): string {
    match p
    case Ya => "ю"
    case Ty => "ишь"
    case On => "ит"
    case Ona => "ит"
    case Ono => "ит"
    case My => "им"
    case Vy => "ите"
    case Oni => "ят"
  }

  /** The ending `getVerbForm` gives a verb whose lower-case trimmed form is `l`. */
  function ConjugationEnding(l: string, p: Pronoun): string {
    if EndsWith(l, "ить") then SecondConjugationEnding(p) else FirstConjugationEnding(p)
  }

  /**
   * `getVerbForm(verb, pronoun)`. -ать/-ять/-еть verbs take the first conjugation
   * on the stem without -ть, -ить verbs the second on the stem without -ить, and any
   * other verb the first-conjugation table on its stem (the infinitive ending -ть,
   * -ти or -чь removed when present).
   */
  function GetVerbForm(verb: string, p: Pronoun): (r: string)
    ensures IsBlank(verb) ==> r == verb
    ensures !IsBlank(verb) ==> EndsWith(r, ConjugationEnding(Lower(Trim(verb)), p)) && KeepsStem(Trim(verb), r, 3)
    ensures !IsBlank(verb) ==> var t := Trim(verb); var l := Lower(t);
      && (EndsWith(l, "ить") ==> r == Chop(t, 3) + SecondConjugationEnding(p))
      && (!EndsWith(l, "ить") && (EndsWith(l, "ть") || EndsWith(l, "ти") || EndsWith(l, "чь")) ==>
            r == Chop(t, 2) + FirstConjugationEnding(p))
      && (!(EndsWith(l, "ть") || EndsWith(l, "ти") || EndsWith(l, "чь")) ==> r == t + FirstConjugationEnding(p))
  {
    if IsBlank(verb) then verb else PresentForm(Trim(verb), Lower(Trim(verb)), p)
  }

  /** The stem without the infinitive ending -ть, -ти or -чь, when there is one. */
  function InfinitiveStem(t: string, l: string): (stem: string)
    requires |t| == |l|
    ensures |t| - 2 <= |stem| <= |t| && stem == t[..|stem|]
  {
    if EndsWith(l, "ть") || EndsWith(l, "ти") || EndsWith(l, "чь") then Chop(t, 2) else t
  }

  /**
   * The present form of the trimmed verb `t` (lower-case `l`): an -ить verb loses three letters
   * and takes the second conjugation; any other verb in -ть, -ти or -чь loses two and takes the
   * first; a verb with none of these endings keeps every letter and takes the first.
   */
  function PresentForm(t: string, l: string, p: Pronoun): (r: string)
    requires |t| == |l|
    ensures EndsWith(r, ConjugationEnding(l, p)) && KeepsStem(t, r, 3)
    ensures EndsWith(l, "ить") ==> r == Chop(t, 3) + SecondConjugationEnding(p)
    ensures !EndsWith(l, "ить") && (EndsWith(l, "ть") || EndsWith(l, "ти") || EndsWith(l, "чь")) ==>
      r == Chop(t, 2) + FirstConjugationEnding(p)
    ensures !(EndsWith(l, "ть") || EndsWith(l, "ти") || EndsWith(l, "чь")) ==> r == t + FirstConjugationEnding(p)
  {
    var stem := InfinitiveStem(t, l);
    if EndsWith(l, "ать") || EndsWith(l, "ять") || EndsWith(l, "еть") then
      assert !EndsWith(l, "ить") by {
        assert l[|l| - 3] == (l[|l| - 3..])[0];
      }
      AttachEnding(t, stem, FirstConjugationEnding(p));
      stem + FirstConjugationEnding(p)
    else if EndsWith(l, "ить") then
      AttachEnding(t, Chop(t, 3), SecondConjugationEnding(p));
      Chop(t, 3) + SecondConjugationEnding(p)
    else
      AttachEnding(t, stem, FirstConjugationEnding(p));
      stem + FirstConjugationEnding(p)
  }

  /** An ending attached to a prefix of `t` at most three letters short keeps the stem and ends the form. */
  lemma AttachEnding(t: string, stem: string, e: string)
    requires |t| - 3 <= |stem| <= |t| && stem == t[..|stem|]
    ensures EndsWith(stem + e, e) && KeepsStem(t, stem + e, 3)
  {
    EndsWithAppend(stem, e);
  }

  lemma {:induction false} AppendCancel(stem: string, a: string, b: string)
    requires stem + a == stem + b
    ensures a == b
  {
    assert a == (stem + a)[|stem|..];
    assert b == (stem + b)[|stem|..];
  }

  /** The stem the ending is attached to: present forms are this stem plus the conjugation ending. */
  function PresentStem(t: string, l: string): string
    requires |t| == |l|
  {
    if EndsWith(l, "ить") && !(EndsWith(l, "ать") || EndsWith(l, "ять") || EndsWith(l, "еть")) then Chop(t, 3)
    else InfinitiveStem(t, l)
  }

  lemma PresentFormSplits(t: string, l: string, p: Pronoun)
    requires |t| == |l|
    ensures PresentForm(t, l, p) == PresentStem(t, l) + ConjugationEnding(l, p)
  {
    if EndsWith(l, "ать") || EndsWith(l, "ять") || EndsWith(l, "еть") {
      assert !EndsWith(l, "ить") by {
        assert l[|l| - 3] == (l[|l| - 3..])[0];
      }
    }
  }

  lemma {:induction false} EndingsIdentifyPerson(l: string, p1: Pronoun, p2: Pronoun)
    requires ConjugationEnding(l, p1) == ConjugationEnding(l, p2)
    ensures PersonNumber(p1) == PersonNumber(p2)
  {
    var e1, e2 := ConjugationEnding(l, p1), ConjugationEnding(l, p2);
    assert |e1| == |e2| && e1[0] == e2[0] && e1[|e1| - 1] == e2[|e2| - 1];
  }

  /** The same verb gets a different form for each grammatical person and number. */
  lemma {:induction false} VerbFormDistinguishesPerson(verb: string, p1: Pronoun, p2: Pronoun)
    requires !IsBlank(verb)
    requires PersonNumber(p1) != PersonNumber(p2)
    ensures GetVerbForm(verb, p1) != GetVerbForm(verb, p2)
  {
    var t := Trim(verb);
    var l := Lower(t);
    PresentFormSplits(t, l, p1);
    PresentFormSplits(t, l, p2);
    if GetVerbForm(verb, p1) == GetVerbForm(verb, p2) {
      AppendCancel(PresentStem(t, l), ConjugationEnding(l, p1), ConjugationEnding(l, p2));
      EndingsIdentifyPerson(l, p1, p2);
    }
  }

  /**
   * `buildPhrase(pronoun, verb, noun, caseType)`: the capitalised pronoun, the verb form
   * and the noun form (gender inferred), separated by spaces and trimmed.
   */
  function BuildPhrase(p: Pronoun, verb: string, noun: string, caseType: Case): (r: string)
    ensures r == [] || !IsWhitespace(r[0])
  {
    Trim(Capitalize(PronounWord(p)) + " " + GetVerbForm(verb, p) + " " + GetCaseForm(noun, caseType, None))
  }

  /** For a real noun the trim removes nothing: the phrase is exactly the three parts joined by spaces. */
  lemma BuildPhraseJoinsParts(p: Pronoun, verb: string, noun: string, caseType: Case)
    requires !IsBlank(noun)
    ensures BuildPhrase(p, verb, noun, caseType)
      == Capitalize(PronounWord(p)) + " " + GetVerbForm(verb, p) + " " + GetCaseForm(noun, caseType, None)
  {
    CapitalizedPronounOpensWithLetter(p);
    assert EndsInLetter(GetCaseForm(noun, caseType, None));
    TrimOfFramed(Capitalize(PronounWord(p)), GetVerbForm(verb, p), GetCaseForm(noun, caseType, None));
  }

  lemma CapitalizedPronounOpensWithLetter(p: Pronoun)
    ensures Capitalize(PronounWord(p)) != [] && !IsWhitespace(Capitalize(PronounWord(p))[0])
  {
  }

  /** Words joined by spaces, the first not opening and the last not closing with white space, are their own trim. */
  lemma TrimOfFramed(a: string, b: string, c: string)
    requires a != [] && !IsWhitespace(a[0]) && c != [] && !IsWhitespace(c[|c| - 1])
    ensures Trim(a + " " + b + " " + c) == a + " " + b + " " + c
  {
    var s := a + " " + b + " " + c;
    assert s[|s| - 1] == c[|c| - 1];
    assert s[0] == a[0];
    TrimOfTrimmed(s);
  }

  // ---------------------------------------------------------------------
  // Genitive plural.

  /** The irregular genitive plurals, keyed by the lower-case trimmed noun. */
  function GenitivePluralExceptions(): map<string, string> {
    map[
    "человек" := "человек",
    "друг" := "друзей",
    "брат" := "братьев",
    "сын" := "сыновей",
    "студент" := "студентов",
    "учитель" := "учителей",
    "музей" := "музеев",
    "театр" := "театров",
    "магазин" := "магазинов",
    "банк" := "банков",
    "парк" := "парков",
    "город" := "городов",
    "центр" := "центров"
    ]
  }

  /**
   * `getGenitivePluralForm(noun, gender?)`. Listed exceptions win; any other noun follows the
   * suffix rules for its given or inferred gender.
   */
  function GetGenitivePluralForm(noun: string, gender: Option<Gender>): (r: string)
    ensures IsBlank(noun) ==> r == noun
    ensures !IsBlank(noun) && Lower(Trim(noun)) in GenitivePluralExceptions() ==>
      r == GenitivePluralExceptions()[Lower(Trim(noun))]
    ensures !IsBlank(noun) && Lower(Trim(noun)) !in GenitivePluralExceptions() ==>
      r == RegularGenitivePlural(Trim(noun), Lower(Trim(noun)), if gender.Some? then gender.value else GetNounGender(noun))
  {
    if IsBlank(noun) then noun
    else
      var t := Trim(noun);
      var l := Lower(t);
      if l in GenitivePluralExceptions() then GenitivePluralExceptions()[l]
      else RegularGenitivePlural(t, l, if gender.Some? then gender.value else GetNounGender(noun))
  }

  /** The suffix rules for a trimmed noun `t` (lower-case `l`) the exception table does not list. */
  function RegularGenitivePlural(t: string, l: string, g: Gender): (r: string)
    requires |t| == |l| && t != []
    ensures KeepsStem(t, r, 1)
  {
    match g
    case MASCULINE => MasculineGenitivePlural(t, l)
    case FEMININE => FeminineGenitivePlural(t, l)
    case NEUTER => NeuterGenitivePlural(t, l)
  }

  /** Masculine: -й takes -ев, -ь takes -ей, a final ж, ш, ч or щ gains -ей, anything else gains -ов. */
  function MasculineGenitivePlural(t: string, l: string): (r: string)
    requires |t| == |l| && t != []
    ensures KeepsStem(t, r, 1)
    ensures EndsWith(l, "й") ==> r == Chop(t, 1) + "ев"
    ensures EndsWith(l, "ь") ==> r == Chop(t, 1) + "ей"
    ensures l[|l| - 1] in "жшчщ" ==> r == t + "ей"
    ensures !(EndsWith(l, "й") || EndsWith(l, "ь")) && l[|l| - 1] !in "жшчщ" ==> r == t + "ов"
  {
    EndsWithLetter(l, 'й');
    EndsWithLetter(l, 'ь');
    if EndsWith(l, "й") then Chop(t, 1) + "ев"
    else if EndsWith(l, "ь") then Chop(t, 1) + "ей"
    else if l[|l| - 1] in "жшчщ" then t + "ей"
    else t + "ов"
  }

  /**
   * Feminine: -а is dropped, and replaced by -ов when the letter before it is к, г or х;
   * -я takes -й, -ь takes -ей, any other ending is kept.
   */
  function FeminineGenitivePlural(t: string, l: string): (r: string)
    requires |t| == |l| && t != []
    ensures KeepsStem(t, r, 1)
    ensures EndsWith(l, "а") && |t| >= 2 && LowerChar(t[|t| - 2]) in "кгх" ==> r == Chop(t, 1) + "ов"
    ensures EndsWith(l, "а") && (|t| < 2 || LowerChar(t[|t| - 2]) !in "кгх") ==> r == Chop(t, 1)
    ensures EndsWith(l, "я") ==> r == Chop(t, 1) + "й"
    ensures EndsWith(l, "ь") ==> r == Chop(t, 1) + "ей"
    ensures !(EndsWith(l, "а") || EndsWith(l, "я") || EndsWith(l, "ь")) ==> r == t
  {
    EndsWithLetter(l, 'а');
    EndsWithLetter(l, 'я');
    EndsWithLetter(l, 'ь');
    if EndsWith(l, "а") then
      var stem := Chop(t, 1);
      assert |stem| > 0 ==> Lower(stem)[|stem| - 1] == LowerChar(t[|t| - 2]);
      if |stem| > 0 && Lower(stem)[|stem| - 1] in "кгх" then stem + "ов" else stem
    else if EndsWith(l, "я") then Chop(t, 1) + "й"
    else if EndsWith(l, "ь") then Chop(t, 1) + "ей"
    else t
  }

  /** Neuter: -о is dropped, -е takes -ей, any other ending is kept. */
  function NeuterGenitivePlural(t: string, l: string): (r: string)
    requires |t| == |l| && t != []
    ensures KeepsStem(t, r, 1)
    ensures EndsWith(l, "о") ==> r == Chop(t, 1)
    ensures EndsWith(l, "е") ==> r == Chop(t, 1) + "ей"
    ensures !(EndsWith(l, "о") || EndsWith(l, "е")) ==> r == t
  {
    EndsWithLetter(l, 'о');
    EndsWithLetter(l, 'е');
    if EndsWith(l, "о") then Chop(t, 1)
    else if EndsWith(l, "е") then Chop(t, 1) + "ей"
    else t
  }

  /** Leaving the gender out of the genitive plural is the same as passing the inferred one. */
  lemma GenitivePluralGenderInferred(noun: string)
    ensures GetGenitivePluralForm(noun, None) == GetGenitivePluralForm(noun, Some(GetNounGender(noun)))
  {
  }

  // ---------------------------------------------------------------------
  // Word checks and the reverse direction.

  /** The regex class `[А-Яа-яЁё]`. */
  predicate IsCyrillicLetter(c: char) {
    ('\U{0410}' <= c <= '\U{044F}') || c == 'Ё' || c == 'ё'
  }

  /**
   * `wordExists(word)`: non-blank and holding at least one Cyrillic letter. A Cyrillic
   * letter is not white space, so the blank test never decides on its own.
   */
  function WordExists(word: string): (b: bool)
    ensures b <==> exists i :: 0 <= i < |word| && IsCyrillicLetter(word[i])
  {
    BlankIsAllWhitespace(word);
    !IsBlank(word) && exists i :: 0 <= i < |word| && IsCyrillicLetter(word[i])
  }

  /** A Russian word exists; a Latin one and a blank one do not. */
  lemma WordExistsExamples()
    ensures WordExists("книга")
    ensures !WordExists("book")
    ensures !WordExists("   ")
  {
    assert IsCyrillicLetter("книга"[0]);
  }

  /**
   * `getNormalForm(word)`: words in -у or -ю come back trimmed (so the -у/-ю reversal
   * branches after that test never fire); -ие becomes -ия, other -е becomes -а.
   */
  function GetNormalForm(word: string): (r: string)
    ensures word != [] ==> KeepsStem(Trim(word), r, 2)
  {
    if word == [] then word
    else
      NormalFormRule(Trim(word), Lower(Trim(word)))
  }

  function NormalFormRule(t: string, l: string): (r: string)
    requires |t| == |l|
    ensures KeepsStem(t, r, 2)
  {
    if EndsWith(l, "ю") || EndsWith(l, "у") then t
    else if EndsWith(l, "е") then
      var withoutE := Chop(t, 1);
      if EndsWith(l, "ие") then Chop(withoutE, 1) + "ия" else withoutE + "а"
    else t
  }

  /**
   * The reversal, ending by ending, on the trimmed word `t` with lower-case form `l`:
   * -у and -ю come back as they are, -ие becomes -ия, any other -е becomes -а, and
   * every other ending comes back as it is.
   */
  lemma NormalFormEndings(word: string)
    requires word != []
    ensures var t, l := Trim(word), Lower(Trim(word));
      && (EndsWith(l, "у") || EndsWith(l, "ю") ==> GetNormalForm(word) == t)
      && (EndsWith(l, "ие") ==> GetNormalForm(word) == Chop(t, 2) + "ия")
      && (EndsWith(l, "е") && !EndsWith(l, "ие") ==> GetNormalForm(word) == Chop(t, 1) + "а")
      && (!EndsWith(l, "у") && !EndsWith(l, "ю") && !EndsWith(l, "е") ==> GetNormalForm(word) == t)
  {
    var t, l := Trim(word), Lower(Trim(word));
    if EndsWith(l, "ие") {
      assert l[|l| - 1..] == l[|l| - 2..][1..];
      EndsWithLetter(l, 'у');
      EndsWithLetter(l, 'ю');
      assert Chop(Chop(t, 1), 1) == Chop(t, 2);
    }
  }

  /** A word without surrounding white space is reversed as it stands. */
  lemma NormalFormOfTrimmed(word: string)
    requires word != [] && !IsWhitespace(word[0]) && !IsWhitespace(word[|word| - 1])
    ensures GetNormalForm(word) == NormalFormRule(word, Lower(word))
  {
    TrimOfTrimmed(word);
  }

  /** A trimmed noun in lower-case -а (not -иа) takes -е in the prepositional. */
  lemma FemininePrepositionalEndsInE(noun: string)
    requires |noun| >= 2 && !IsWhitespace(noun[0])
    requires noun[|noun| - 1] == 'а' && LowerChar(noun[|noun| - 2]) != 'и'
    ensures GetCaseForm(noun, Prepositional, None) == Chop(noun, 1) + "е"
  {
    var l := Lower(noun);
    assert l[|l| - 1..] == "а";
    assert !EndsWith(l, "ия") by {
      assert l[|l| - 2] == LowerChar(noun[|noun| - 2]);
    }
    CaseFormOfTrimmed(noun, Prepositional, None);
    assert PrepositionalForm(noun, l, InferGender(l)) == Chop(noun, 1) + "е";
  }

  /** A trimmed word in -е whose letter before it is not и goes back to -а. */
  lemma NormalFormOfE(stem: string)
    requires |stem| >= 1 && !IsWhitespace(stem[0]) && LowerChar(stem[|stem| - 1]) != 'и'
    ensures GetNormalForm(stem + "е") == stem + "а"
  {
    var form := stem + "е";
    assert form[0] == stem[0];
    NormalFormOfTrimmed(form);
    var lf := Lower(form);
    assert lf[|lf| - 1..] == "е";
    assert lf[|lf| - 2] == LowerChar(stem[|stem| - 1]);
    assert !EndsWith(lf, "ие") by {
      assert lf[|lf| - 2..][0] == lf[|lf| - 2];
    }
    assert Chop(form, 1) == stem;
  }

  /**
   * The reversal undoes the feminine prepositional: a trimmed noun in lower-case -а
   * (not -иа) goes to -е and back to itself.
   */
  lemma {:induction false} NormalFormUndoesFemininePrepositional(noun: string)
    requires |noun| >= 2 && !IsWhitespace(noun[0])
    requires noun[|noun| - 1] == 'а' && LowerChar(noun[|noun| - 2]) != 'и'
    ensures GetNormalForm(GetCaseForm(noun, Prepositional, None)) == noun
  {
    var stem := noun[..|noun| - 1];
    assert stem[|stem| - 1] == noun[|noun| - 2];
    Seqs.InitLast(noun);
    assert stem + "а" == noun;
    FemininePrepositionalEndsInE(noun);
    NormalFormOfE(stem);
  }

  /** The feminine accusative is not undone: книга → книгу → книгу. */
  lemma AccusativeIsNotUndone()
    ensures GetNormalForm(GetCaseForm("книга", Accusative, None)) == "книгу"
  {
    BookAccusative();
    NormalFormOfTrimmed("книгу");
    assert Lower("книгу") == "книгу";
    assert EndsWith("книгу", "у");
  }

  /**
   * As written, the reversal never undoes a feminine accusative: the -у/-ю guard returns
   * the word before the noun branches are reached, so a trimmed noun in -а or -я comes back
   * from the accusative with its -у or -ю still on.
   */
  lemma {:induction false} AccusativeIsNeverUndone(noun: string)
    requires |noun| >= 1 && !IsWhitespace(noun[0]) && (noun[|noun| - 1] == 'а' || noun[|noun| - 1] == 'я')
    ensures GetNormalForm(GetCaseForm(noun, Accusative, None)) == GetCaseForm(noun, Accusative, None)
    ensures GetNormalForm(GetCaseForm(noun, Accusative, None)) != noun
  {
    var form := FeminineAccusative(noun);
    NormalFormOfTrimmed(form);
    var lf := Lower(form);
    EndsWithLetter(lf, 'у');
    EndsWithLetter(lf, 'ю');
    assert lf[|lf| - 1] == LowerChar(form[|form| - 1]);
    assert form[|form| - 1] != noun[|noun| - 1];
  }

  /**
   * The accusative of a trimmed noun in lower-case -а or -я: -у or -ю in place of its last
   * letter, and still a trimmed word.
   */
  lemma FeminineAccusative(noun: string) returns (form: string)
    requires |noun| >= 1 && !IsWhitespace(noun[0]) && (noun[|noun| - 1] == 'а' || noun[|noun| - 1] == 'я')
    ensures form == GetCaseForm(noun, Accusative, None)
    ensures form == Chop(noun, 1) + (if noun[|noun| - 1] == 'а' then "у" else "ю")
    ensures form != [] && !IsWhitespace(form[0]) && !IsWhitespace(form[|form| - 1])
  {
    CaseFormOfTrimmed(noun, Accusative, None);
    var l := Lower(noun);
    assert l[|l| - 1] == noun[|noun| - 1];
    EndsWithLetter(l, 'а');
    EndsWithLetter(l, 'я');
    form := GetCaseForm(noun, Accusative, None);
    assert |noun| > 1 ==> form[0] == noun[0];
  }

  /**
   * The reversal as evidently intended: the noun branches for -у (back to -а) and -ю (back
   * to -я) are reached; -ие and -е are reversed as before.
   */
  function NormalFormRuleIntended(t: string, l: string): (r: string)
    requires |t| == |l|
    ensures KeepsStem(t, r, 2)
    ensures EndsWith(l, "у") ==> r == Chop(t, 1) + "а"
    ensures EndsWith(l, "ю") ==> r == Chop(t, 1) + "я"
    ensures !EndsWith(l, "у") && !EndsWith(l, "ю") ==> r == NormalFormRule(t, l)
  {
    if EndsWith(l, "у") then Chop(t, 1) + "а"
    else if EndsWith(l, "ю") then Chop(t, 1) + "я"
    else NormalFormRule(t, l)
  }

  /** `getNormalForm` with the -у/-ю noun reversals reached. */
  function GetNormalFormIntended(word: string): (r: string)
    ensures word != [] ==> KeepsStem(Trim(word), r, 2)
  {
    if word == [] then word else NormalFormRuleIntended(Trim(word), Lower(Trim(word)))
  }

  /** With the noun reversals reached, the feminine accusative goes back to the noun: книгу → книга. */
  lemma {:induction false} IntendedNormalFormUndoesAccusative(noun: string)
    requires |noun| >= 1 && !IsWhitespace(noun[0]) && (noun[|noun| - 1] == 'а' || noun[|noun| - 1] == 'я')
    ensures GetNormalFormIntended(GetCaseForm(noun, Accusative, None)) == noun
  {
    var form := FeminineAccusative(noun);
    TrimOfTrimmed(form);
    var lf := Lower(form);
    EndsWithLetter(lf, 'у');
    EndsWithLetter(lf, 'ю');
    assert lf[|lf| - 1] == LowerChar(form[|form| - 1]);
    assert Chop(form, 1) == Chop(noun, 1);
    Seqs.InitLast(noun);
  }

  /** The reversal of the integration test: книгу goes back to книга once the noun branch is reached. */
  lemma IntendedNormalFormOfBook()
    ensures GetNormalFormIntended("книгу") == "книга"
  {
    BookAccusative();
    IntendedNormalFormUndoesAccusative("книга");
  }

  datatype WordData = WordData(word: string, normalForm: string, gender: Gender)

  /** `getWordData(word)`: nothing for a word `wordExists` rejects. */
  function GetWordData(word: string): (r: Option<WordData>)
    ensures r.Some? <==> WordExists(word)
    ensures r.Some? ==> r.value.word == word && r.value.gender == InferGender(Lower(Trim(word)))
    ensures r.Some? ==> r.value.normalForm == GetNormalForm(word)
  {
    if !WordExists(word) then None
    else Some(WordData(word, GetNormalForm(word), GetNounGender(word)))
  }

  // ---------------------------------------------------------------------
  // Forms the integration test expects, and a few more.

  lemma BookAccusative()
    ensures GetCaseForm("книга", Accusative, None) == "книгу"
  {
    CaseFormOfTrimmed("книга", Accusative, None);
    assert Lower("книга") == "книга";
    assert EndsWith("книга", "а");
    assert InferGender("книга") == FEMININE;
    assert AccusativeForm("книга", "книга", FEMININE) == "книгу";
  }

  lemma ReadIsRead()
    ensures GetVerbForm("читать", Ya) == "читаю"
  {
    TrimOfTrimmed("читать");
    assert Lower("читать") == "читать";
    assert EndsWith("читать", "ать");
    assert EndsWith("читать", "ть");
    assert InfinitiveStem("читать", "читать") == "чита";
  }

  lemma PhraseFromForms(verb: string, noun: string)
    requires !IsBlank(noun)
    requires GetVerbForm(verb, Ya) == "читаю" && GetCaseForm(noun, Accusative, None) == "книгу"
    ensures BuildPhrase(Ya, verb, noun, Accusative) == "Я читаю книгу"
  {
    BuildPhraseJoinsParts(Ya, verb, noun, Accusative);
    CapitalYa();
    SpacedWords("Я", GetVerbForm(verb, Ya), GetCaseForm(noun, Accusative, None));
  }

  lemma SpacedWords(a: string, b: string, c: string)
    requires a == "Я" && b == "читаю" && c == "книгу"
    ensures a + " " + b + " " + c == "Я читаю книгу"
  {
  }

  lemma CapitalYa()
    ensures Capitalize(PronounWord(Ya)) == "Я"
  {
    assert UpperChar('я') == 'Я';
  }

  /** The phrase of the integration test: Я читаю книгу. */
  lemma ReadsTheBook()
    ensures BuildPhrase(Ya, "читать", "книга", Accusative) == "Я читаю книгу"
  {
    TrimOfTrimmed("книга");
    assert !IsBlank("книга");
    BookAccusative();
    ReadIsRead();
    PhraseFromForms("читать", "книга");
  }

  /** город is lower-case and ends in a hard consonant, so it is masculine. */
  lemma CityIsMasculine()
    ensures Lower("город") == "город" && InferGender("город") == MASCULINE
    ensures !EndsWith("город", "й") && !EndsWith("город", "ь")
  {
    assert !EndsWith("город", "а") && !EndsWith("город", "я") && !EndsWith("город", "о") && !EndsWith("город", "е");
  }

  /** Masculine nouns on a consonant take -а in the genitive: город → города. */
  lemma CityGenitive()
    ensures GetCaseForm("город", GenitiveCase, None) == "города"
  {
    CaseFormOfTrimmed("город", GenitiveCase, None);
    CityIsMasculine();
    assert GenitiveForm("город", "город", MASCULINE) == "город" + "а";
  }

  /** Masculine nouns on a consonant take -е in the prepositional: город → городе. */
  lemma CityPrepositional()
    ensures GetCaseForm("город", Prepositional, None) == "городе"
  {
    CaseFormOfTrimmed("город", Prepositional, None);
    CityIsMasculine();
    assert PrepositionalForm("город", "город", MASCULINE) == "город" + "е";
  }

  /** -ия is checked before -я: лекция → лекции. */
  lemma LecturePrepositional()
    ensures GetCaseForm("лекция", Prepositional, None) == "лекции"
  {
    CaseFormOfTrimmed("лекция", Prepositional, None);
    assert Lower("лекция") == "лекция";
    assert EndsWith("лекция", "ия");
    assert InferGender("лекция") == FEMININE;
  }

  /** The exception table decides город → городов. */
  lemma CityGenitivePlural()
    ensures GetGenitivePluralForm("город", None) == "городов"
  {
    TrimOfTrimmed("город");
    assert Lower("город") == "город";
    assert "город" in GenitivePluralExceptions();
  }

  /** Feminine -а nouns with a stem in к, г or х take -ов: книга → книгов. */
  lemma BookGenitivePlural()
    ensures GetGenitivePluralForm("книга", None) == "книгов"
  {
    TrimOfTrimmed("книга");
    assert Lower("книга") == "книга";
    assert "книга" !in GenitivePluralExceptions();
    assert EndsWith("книга", "а");
    assert GetNounGender("книга") == FEMININE;
    assert Lower("книг") == "книг";
  }
}
