/**
 * Themes of vocabulary packs and lexemes: the theme a pack or a lexeme carries,
 * whether two themes go together, a keyword heuristic that suggests a theme from
 * a lexeme's words, and the map from pack id to theme.
 */
module ThemeHelper {
  import opened Text
  import opened Models
  import Seqs

  /** `x || null` on an optional string: the empty string counts as missing. */
  function Truthy(s: Option<string>): (r: Option<string>)
    ensures r.Some? <==> s.Some? && s.value != []
    ensures r.Some? ==> r == s
  {
    if s.Some? && s.value != [] then s else None
  }

  /** Position of the first pack with the id, or `|packs|` when there is none. */
  function PackIndex(packs: seq<VocabPack>, packId: int): (i: nat)
    ensures i <= |packs|
    ensures i < |packs| ==> packs[i].packId == packId
    ensures forall j :: 0 <= j < i ==> packs[j].packId != packId
  {
    Seqs.FirstIndex(packs, (x: VocabPack) => x.packId == packId)
  }

  /** `vocabPacks.find(p => p.pack_id === packId)` */
  function FindPack(packs: seq<VocabPack>, packId: int): (r: Option<VocabPack>)
    ensures r.Some? ==> r.value in packs && r.value.packId == packId
    ensures r.None? <==> forall p :: p in packs ==> p.packId != packId
  {
    var i := PackIndex(packs, packId);
    if i < |packs| then Some(packs[i]) else None
  }

  /**
   * `getPackTheme(packId, vocabPacks)`: the non-empty theme of the first pack with the
   * id; nothing when no pack has it or that pack's theme is missing or empty.
   */
  function GetPackTheme(packId: int, packs: seq<VocabPack>): (r: Option<string>)
    ensures r.Some? ==> r.value != [] && exists p :: p in packs && p.packId == packId && p.theme == r
    ensures (forall p :: p in packs ==> p.packId != packId) ==> r.None?
    ensures var i := PackIndex(packs, packId);
      && (r.None? <==> i == |packs| || packs[i].theme.None? || packs[i].theme.value == [])
      && (r.Some? ==> r == packs[i].theme)
  {
    match FindPack(packs, packId)
    case None => None
    case Some(pack) => Truthy(pack.theme)
  }

  /**
   * `getLexemeTheme(lexeme, packThemes)`: the lexeme's own non-empty semantic theme;
   * the map of pack themes is accepted but never read.
   */
  function GetLexemeTheme(lexeme: Lexeme, packThemes: map<int, string>): (r: Option<string>)
    ensures r.Some? <==> lexeme.semanticTheme.Some? && lexeme.semanticTheme.value != []
    ensures r.Some? ==> r == lexeme.semanticTheme
  {
    Truthy(lexeme.semanticTheme)
  }

  /** `map.get(a)` exists and includes `b`. */
  predicate Lists(cmap: map<string, seq<string>>, a: string, b: string) {
    a in cmap && b in cmap[a]
  }

  /**
   * `areThemesCompatible(theme1, theme2, compatibilityMap?)`: without a map only equal
   * themes; with one, also themes either of which lists the other.
   */
  function AreThemesCompatible(theme1: string, theme2: string, cmap: Option<map<string, seq<string>>>): (r: bool)
    ensures cmap.None? ==> (r <==> theme1 == theme2)
    ensures cmap.Some? ==> (r <==> theme1 == theme2 || Lists(cmap.value, theme1, theme2) || Lists(cmap.value, theme2, theme1))
  {
    if cmap.None? then theme1 == theme2
    else if theme1 in cmap.value && theme2 in cmap.value[theme1] then true
    else if theme2 in cmap.value && theme1 in cmap.value[theme2] then true
    else theme1 == theme2
  }

  /** Compatibility is reflexive and symmetric, with or without a map. */
  lemma ThemeCompatibilityIsSymmetric(theme1: string, theme2: string, cmap: Option<map<string, seq<string>>>)
    ensures AreThemesCompatible(theme1, theme1, cmap)
    ensures AreThemesCompatible(theme1, theme2, cmap) == AreThemesCompatible(theme2, theme1, cmap)
  {
  }

  // ---------------------------------------------------------------------
  // The keyword heuristic.

  /** One category of the heuristic: its theme and the keywords that select it. */
  datatype ThemeRule = ThemeRule(theme: string, englishKeywords: seq<string>, russianKeywords: seq<string>)

  /** The categories in the order they are tried. */
  function ThemeRules(): seq<ThemeRule> {
    [ ThemeRule("food", ["food", "eat", "drink", "restaurant", "café", "menu", "bill"], ["еда", "ресторан"]),
      ThemeRule("transit", ["train", "bus", "car", "travel", "ticket", "passenger", "station"], ["поезд", "автобус"]),
      ThemeRule("education", ["student", "university", "school", "teacher", "study"], ["студент", "университет"]),
      ThemeRule("family", ["dad", "mom", "father", "mother", "brother", "sister", "family"], ["папа", "мама"]),
      ThemeRule("hobbies", ["read", "watch", "listen", "book", "movie", "music"], ["читать", "смотреть"]),
      ThemeRule("readable", ["book", "magazine", "newspaper", "article"], ["книга"]),
      ThemeRule("edible", ["apple", "bread", "food", "meal"], ["яблоко", "хлеб"]),
      ThemeRule("location", ["university", "house", "home", "restaurant", "café"], ["университет", "дом"]) ]
  }

  /** Some keyword of the rule occurs in the lower-case translation or the lower-case word. */
  predicate RuleMatches(rule: ThemeRule, translation: string, word: string) {
    (exists k :: k in rule.englishKeywords && Contains(translation, k))
    || (exists k :: k in rule.russianKeywords && Contains(word, k))
  }

  /** Index of the first matching rule, or `|rules|` when none matches. */
  function FirstMatch(rules: seq<ThemeRule>, translation: string, word: string): (i: nat)
    ensures i <= |rules|
    ensures i < |rules| ==> RuleMatches(rules[i], translation, word)
    ensures forall j :: 0 <= j < i ==> !RuleMatches(rules[j], translation, word)
    decreases |rules|
  {
    if rules == [] then 0
    else if RuleMatches(rules[0], translation, word) then 0
    else 1 + FirstMatch(rules[1..], translation, word)
  }

  /**
   * `suggestThemeForLexeme(lexeme)`: the theme of the first category one of whose
   * keywords occurs in the lower-cased translation or word; nothing when none does.
   */
  function SuggestThemeForLexeme(lexeme: Lexeme): (r: Option<string>)
    ensures var t, w := Lower(lexeme.englishTranslation), Lower(lexeme.russianWord);
      && (r.None? <==> forall i :: 0 <= i < |ThemeRules()| ==> !RuleMatches(ThemeRules()[i], t, w))
      && (r.Some? ==> exists i :: 0 <= i < |ThemeRules()| && ThemeRules()[i].theme == r.value
                                 && RuleMatches(ThemeRules()[i], t, w))
  {
    var rules := ThemeRules();
    var i := FirstMatch(rules, Lower(lexeme.englishTranslation), Lower(lexeme.russianWord));
    if i < |rules| then Some(rules[i].theme) else None
  }

  /** A lexeme whose translation contains an English keyword of rule `j` is decided by rule `j` or an earlier one. */
  lemma KeywordDecidesByIndex(lexeme: Lexeme, j: nat, k: string)
    requires j < |ThemeRules()| && k in ThemeRules()[j].englishKeywords
    requires Contains(Lower(lexeme.englishTranslation), k)
    ensures FirstMatch(ThemeRules(), Lower(lexeme.englishTranslation), Lower(lexeme.russianWord)) <= j
  {
    assert RuleMatches(ThemeRules()[j], Lower(lexeme.englishTranslation), Lower(lexeme.russianWord));
  }

  /** No two categories share a theme name. */
  lemma ThemeNamesDistinct()
    ensures forall i, j :: 0 <= i < j < |ThemeRules()| ==> ThemeRules()[i].theme != ThemeRules()[j].theme
  {
    var rules := ThemeRules();
    assert rules[0].theme[0] == 'f' && rules[1].theme[0] == 't' && rules[2].theme[..2] == "ed";
    assert rules[3].theme[..2] == "fa" && rules[4].theme[0] == 'h' && rules[5].theme[0] == 'r';
    assert rules[6].theme[..2] == "ed" && rules[7].theme[0] == 'l';
    assert rules[0].theme[..2] == "fo" && rules[2].theme[2] == 'u' && rules[6].theme[2] == 'i';
  }

  /** The theme the heuristic suggests is that of the category with the first match. */
  lemma SuggestionByIndex(lexeme: Lexeme, j: nat)
    requires j < |ThemeRules()|
    requires SuggestThemeForLexeme(lexeme) == Some(ThemeRules()[j].theme)
    ensures FirstMatch(ThemeRules(), Lower(lexeme.englishTranslation), Lower(lexeme.russianWord)) == j
  {
    ThemeNamesDistinct();
  }

  /**
   * Categories are tried in order, so keywords that an earlier category also lists never
   * decide a later one: "readable" is never suggested for a "book".
   */
  lemma BookIsNeverReadable(lexeme: Lexeme)
    requires Contains(Lower(lexeme.englishTranslation), "book")
    ensures SuggestThemeForLexeme(lexeme) != Some("readable")
  {
    KeywordDecidesByIndex(lexeme, 4, "book");
    if SuggestThemeForLexeme(lexeme) == Some("readable") {
      SuggestionByIndex(lexeme, 5);
    }
  }

  /** "edible" is never suggested for a "food": the food category comes first. */
  lemma FoodIsNeverEdible(lexeme: Lexeme)
    requires Contains(Lower(lexeme.englishTranslation), "food")
    ensures SuggestThemeForLexeme(lexeme) != Some("edible")
  {
    KeywordDecidesByIndex(lexeme, 0, "food");
  }

  /** "location" is never suggested for a "university", "restaurant" or "café". */
  lemma PlacesAreNeverLocations(lexeme: Lexeme)
    requires var t := Lower(lexeme.englishTranslation);
      Contains(t, "university") || Contains(t, "restaurant") || Contains(t, "café")
    ensures SuggestThemeForLexeme(lexeme) != Some("location")
  {
    var t := Lower(lexeme.englishTranslation);
    if Contains(t, "university") {
      KeywordDecidesByIndex(lexeme, 2, "university");
    } else if Contains(t, "restaurant") {
      KeywordDecidesByIndex(lexeme, 0, "restaurant");
    } else {
      KeywordDecidesByIndex(lexeme, 0, "café");
    }
    if SuggestThemeForLexeme(lexeme) == Some("location") {
      SuggestionByIndex(lexeme, 7);
    }
  }

  // ---------------------------------------------------------------------
  // Pack-id → theme map.

  /** The map `buildPackThemeMap` fills: packs in order, each with a non-empty theme `set`. */
  function PackThemeMap(packs: seq<VocabPack>): (m: map<int, string>)
    decreases |packs|
  {
    if packs == [] then map[]
    else
      var m := PackThemeMap(packs[..|packs| - 1]);
      var p := packs[|packs| - 1];
      if p.theme.Some? && p.theme.value != [] then m[p.packId := p.theme.value] else m
  }

  /** `buildPackThemeMap(vocabPacks)` */
  method BuildPackThemeMap(packs: seq<VocabPack>) returns (m: map<int, string>)
    ensures m == PackThemeMap(packs)
  {
    m := map[];
    for i := 0 to |packs|
      invariant m == PackThemeMap(packs[..i])
    {
      assert packs[..i + 1][..i] == packs[..i];
      var pack := packs[i];
      if pack.theme.Some? && pack.theme.value != [] {
        m := m[pack.packId := pack.theme.value];
      }
    }
    assert packs[..|packs|] == packs;
  }

  /** The map's keys are exactly the ids of packs with a non-empty theme. */
  lemma {:induction false} PackThemeMapKeys(packs: seq<VocabPack>, id: int)
    ensures id in PackThemeMap(packs) <==> exists i :: 0 <= i < |packs| && packs[i].packId == id && Truthy(packs[i].theme).Some?
    decreases |packs|
  {
    if packs != [] {
      var n := |packs| - 1;
      var init := packs[..n];
      PackThemeMapKeys(init, id);
      if id in PackThemeMap(packs) {
        if !(packs[n].packId == id && Truthy(packs[n].theme).Some?) {
          var i :| 0 <= i < |init| && init[i].packId == id && Truthy(init[i].theme).Some?;
          assert packs[i] == init[i];
        }
      } else {
        forall i | 0 <= i < |packs| && packs[i].packId == id
          ensures Truthy(packs[i].theme).None?
        {
          if i < n {
            assert packs[i] == init[i];
          }
        }
      }
    }
  }

  /** A key's theme is that of the last pack with the id and a non-empty theme. */
  lemma {:induction false} PackThemeMapLastWins(packs: seq<VocabPack>, id: int)
    requires id in PackThemeMap(packs)
    ensures exists i :: (0 <= i < |packs| && packs[i].packId == id
      && packs[i].theme == Some(PackThemeMap(packs)[id])
      && forall j :: i < j < |packs| && packs[j].packId == id ==> Truthy(packs[j].theme).None?)
    decreases |packs|
  {
    var n := |packs| - 1;
    var init := packs[..n];
    var p := packs[n];
    if p.theme.Some? && p.theme.value != [] && p.packId == id {
      assert packs[n].theme == Some(PackThemeMap(packs)[id]);
    } else {
      assert PackThemeMap(packs) == PackThemeMap(init) || p.packId != id;
      PackThemeMapLastWins(init, id);
      var i :| 0 <= i < |init| && init[i].packId == id && init[i].theme == Some(PackThemeMap(init)[id])
        && forall j :: i < j < |init| && init[j].packId == id ==> Truthy(init[j].theme).None?;
      assert packs[i] == init[i];
      forall j | i < j < |packs| && packs[j].packId == id
        ensures Truthy(packs[j].theme).None?
      {
        if j < n {
          assert packs[j] == init[j];
        }
      }
    }
  }

  /**
   * The map holds exactly the ids of packs with a non-empty theme, and an id's theme is
   * that of the last such pack.
   */
  lemma PackThemeMapContents(packs: seq<VocabPack>, id: int)
    ensures id in PackThemeMap(packs) <==> exists i :: 0 <= i < |packs| && packs[i].packId == id && Truthy(packs[i].theme).Some?
    ensures id in PackThemeMap(packs) ==>
      exists i :: (0 <= i < |packs| && packs[i].packId == id
        && packs[i].theme == Some(PackThemeMap(packs)[id])
        && forall j :: i < j < |packs| && packs[j].packId == id ==> Truthy(packs[j].theme).None?)
  {
    PackThemeMapKeys(packs, id);
    if id in PackThemeMap(packs) {
      PackThemeMapLastWins(packs, id);
    }
  }

  /**
   * With distinct pack ids the map and `getPackTheme` agree: an id is in the map exactly
   * when `getPackTheme` finds a theme for it, and the themes are the same.
   */
  lemma {:induction false} PackThemeMapAgreesWithGetPackTheme(packs: seq<VocabPack>, id: int)
    requires forall i, j :: 0 <= i < j < |packs| ==> packs[i].packId != packs[j].packId
    ensures id in PackThemeMap(packs) <==> GetPackTheme(id, packs).Some?
    ensures id in PackThemeMap(packs) ==> GetPackTheme(id, packs) == Some(PackThemeMap(packs)[id])
  {
    PackThemeMapContents(packs, id);
    var k := PackIndex(packs, id);
    if id in PackThemeMap(packs) {
      var i :| 0 <= i < |packs| && packs[i].packId == id && packs[i].theme == Some(PackThemeMap(packs)[id])
        && forall j :: i < j < |packs| && packs[j].packId == id ==> Truthy(packs[j].theme).None?;
      assert k == i;
    } else if k < |packs| {
      assert Truthy(packs[k].theme).None?;
    }
  }
}
