/**
 * Whether a verb can take a noun as its object: explicit id links first, then themes,
 * then learned patterns from the store, then a lenient default. Plus the searches built
 * on that test and the lexeme-id → pack-id map.
 */
module SentenceCompatibility {
  import opened Text
  import opened Seqs
  import opened Models
  import opened Random
  import opened ThemeHelper
  import opened CompatibilityStorage

  /** The optional arguments every compatibility function passes along. */
  datatype ThemeContext = ThemeContext(
    packThemes: Option<map<int, string>>,
    vocabPacks: Option<seq<VocabPack>>,
    lexemeToPack: Option<map<int, int>>)

  /** The theme of the first pack that lists the lexeme and has a non-empty theme. */
  function ListingPackTheme(packs: seq<VocabPack>, lexemeId: int): (r: Option<string>)
    ensures r.Some? ==> r.value != []
    decreases |packs|
  {
    if packs == [] then None
    else if lexemeId in packs[0].associatedLexemes && Truthy(packs[0].theme).Some? then packs[0].theme
    else ListingPackTheme(packs[1..], lexemeId)
  }

  /**
   * The loop over packs in `getThemeForLexeme` finds a theme exactly when some pack lists the
   * lexeme and has a non-empty theme, and then it is the theme of the first such pack.
   */
  lemma {:induction false} ListingPackThemeIsFirst(packs: seq<VocabPack>, lexemeId: int)
    ensures var r := ListingPackTheme(packs, lexemeId);
      && (r.Some? <==> exists i :: 0 <= i < |packs| && lexemeId in packs[i].associatedLexemes && Truthy(packs[i].theme).Some?)
      && (r.Some? ==> exists i :: (0 <= i < |packs| && lexemeId in packs[i].associatedLexemes && packs[i].theme == r
            && forall j :: 0 <= j < i ==> !(lexemeId in packs[j].associatedLexemes && Truthy(packs[j].theme).Some?)))
    decreases |packs|
  {
    if packs != [] && !(lexemeId in packs[0].associatedLexemes && Truthy(packs[0].theme).Some?) {
      ListingPackThemeIsFirst(packs[1..], lexemeId);
      assert forall i :: 1 <= i < |packs| ==> packs[i] == packs[1..][i - 1];
      var r := ListingPackTheme(packs, lexemeId);
      if r.Some? {
        var i :| 0 <= i < |packs[1..]| && lexemeId in packs[1..][i].associatedLexemes && packs[1..][i].theme == r
          && forall j :: 0 <= j < i ==> !(lexemeId in packs[1..][j].associatedLexemes && Truthy(packs[1..][j].theme).Some?);
        assert packs[i + 1] == packs[1..][i];
      }
    }
  }

  /** The theme the lexeme-to-pack and pack-theme maps give, when both are passed and both lookups succeed. */
  function MappedPackTheme(lexemeId: int, ctx: ThemeContext): (r: Option<string>)
    ensures r.Some? ==> r.value != [] && ctx.lexemeToPack.Some? && ctx.packThemes.Some?
    ensures r.Some? <==>
      (ctx.lexemeToPack.Some? && ctx.packThemes.Some?
       && lexemeId in ctx.lexemeToPack.value && ctx.lexemeToPack.value[lexemeId] != 0
       && ctx.lexemeToPack.value[lexemeId] in ctx.packThemes.value
       && ctx.packThemes.value[ctx.lexemeToPack.value[lexemeId]] != [])
    ensures r.Some? ==> r.value == ctx.packThemes.value[ctx.lexemeToPack.value[lexemeId]]
  {
    if ctx.lexemeToPack.Some? && ctx.packThemes.Some? && lexemeId in ctx.lexemeToPack.value then
      var packId := ctx.lexemeToPack.value[lexemeId];
      if packId != 0 && packId in ctx.packThemes.value && ctx.packThemes.value[packId] != [] then
        Some(ctx.packThemes.value[packId])
      else None
    else None
  }

  /**
   * `getThemeForLexeme(lexeme, packThemes?, vocabPacks?, lexemeToPackMap?)`: the lexeme's
   * own theme, else its mapped pack's theme, else the first listing pack's theme.
   */
  function GetThemeForLexeme(lexeme: Lexeme, ctx: ThemeContext): (r: Option<string>)
    ensures r.Some? ==> r.value != []
    ensures lexeme.semanticTheme.Some? && lexeme.semanticTheme.value != [] ==> r == lexeme.semanticTheme
    ensures Truthy(lexeme.semanticTheme).None? && MappedPackTheme(lexeme.lexemeId, ctx).Some? ==>
      r == MappedPackTheme(lexeme.lexemeId, ctx)
    ensures Truthy(lexeme.semanticTheme).None? && MappedPackTheme(lexeme.lexemeId, ctx).None? ==>
      r == (if ctx.vocabPacks.Some? then ListingPackTheme(ctx.vocabPacks.value, lexeme.lexemeId) else None)
  {
    if Truthy(lexeme.semanticTheme).Some? then lexeme.semanticTheme
    else if MappedPackTheme(lexeme.lexemeId, ctx).Some? then MappedPackTheme(lexeme.lexemeId, ctx)
    else if ctx.vocabPacks.Some? then ListingPackTheme(ctx.vocabPacks.value, lexeme.lexemeId)
    else None
  }

  /** Strategy 1: either side names the other in its explicit compatibility list. */
  predicate ExplicitLink(verb: Lexeme, noun: Lexeme) {
    (verb.compatibleNounIds.Some? && noun.lexemeId in verb.compatibleNounIds.value)
    || (noun.compatibleVerbIds.Some? && verb.lexemeId in noun.compatibleVerbIds.value)
  }

  /** Strategy 2: both sides have a theme, and the verb lists the noun's theme or the themes are equal. */
  predicate ThemesMatch(verb: Lexeme, verbTheme: Option<string>, nounTheme: Option<string>) {
    verbTheme.Some? && nounTheme.Some?
    && ((verb.compatibleThemes.Some? && nounTheme.value in verb.compatibleThemes.value) || verbTheme == nounTheme)
  }

  /**
   * `isCompatible(verb, noun, ...)`, reading the learned patterns `stored`. The strategies
   * in order: explicit links, theme rules, a stored pattern, exactly one side themed.
   */
  function IsCompatible(verb: Lexeme, noun: Lexeme, ctx: ThemeContext, stored: map<string, bool>): (r: bool)
    ensures ExplicitLink(verb, noun) ==> r
  {
    if verb.compatibleNounIds.Some? && noun.lexemeId in verb.compatibleNounIds.value then true
    else if noun.compatibleVerbIds.Some? && verb.lexemeId in noun.compatibleVerbIds.value then true
    else
      var verbTheme := GetThemeForLexeme(verb, ctx);
      var nounTheme := GetThemeForLexeme(noun, ctx);
      if verbTheme.Some? && nounTheme.Some?
         && ((verb.compatibleThemes.Some? && nounTheme.value in verb.compatibleThemes.value)
             || verbTheme == nounTheme
             || AreThemesCompatible(verbTheme.value, nounTheme.value, None)) then true
      else
        var storedPattern := Lookup(stored, Key(verb.lexemeId, noun.lexemeId));
        if storedPattern.Some? then storedPattern.value
        else if (verbTheme.Some? && nounTheme.None?) || (verbTheme.None? && nounTheme.Some?) then true
        else false
  }

  /**
   * What `isCompatible` decides: a pair is compatible exactly when it is explicitly
   * linked, or its themes match, or the store holds `true` for it, or exactly one side
   * has a theme. The map-less `areThemesCompatible` call adds nothing to the equality
   * test, and a stored value can only ever be `true`.
   */
  lemma IsCompatibleCases(verb: Lexeme, noun: Lexeme, ctx: ThemeContext, stored: map<string, bool>)
    ensures var vt, nt := GetThemeForLexeme(verb, ctx), GetThemeForLexeme(noun, ctx);
      IsCompatible(verb, noun, ctx, stored) <==>
        ExplicitLink(verb, noun) || ThemesMatch(verb, vt, nt)
        || Lookup(stored, Key(verb.lexemeId, noun.lexemeId)) == Some(true)
        || vt.Some? != nt.Some?
  {
  }

  /** Neither side themed, no explicit link and nothing stored: not compatible. */
  lemma UntaggedPairsAreIncompatible(verb: Lexeme, noun: Lexeme, ctx: ThemeContext, stored: map<string, bool>)
    requires !ExplicitLink(verb, noun)
    requires GetThemeForLexeme(verb, ctx).None? && GetThemeForLexeme(noun, ctx).None?
    requires Key(verb.lexemeId, noun.lexemeId) !in stored
    ensures !IsCompatible(verb, noun, ctx, stored)
  {
    IsCompatibleCases(verb, noun, ctx, stored);
  }

  /**
   * The store is consulted only after the explicit links and theme rules, and a stored
   * `false` reads as absent: storing `false` for the pair never changes the answer.
   */
  lemma StoredFalseIsIgnored(verb: Lexeme, noun: Lexeme, ctx: ThemeContext, stored: map<string, bool>)
    ensures var k := Key(verb.lexemeId, noun.lexemeId);
      IsCompatible(verb, noun, ctx, stored[k := false]) == IsCompatible(verb, noun, ctx, stored - {k})
  {
    var k := Key(verb.lexemeId, noun.lexemeId);
    IsCompatibleCases(verb, noun, ctx, stored[k := false]);
    IsCompatibleCases(verb, noun, ctx, stored - {k});
  }

  /** When links or themes decide, the store's contents do not matter. */
  lemma StoreIrrelevantWhenThemesDecide(verb: Lexeme, noun: Lexeme, ctx: ThemeContext, s1: map<string, bool>, s2: map<string, bool>)
    requires ExplicitLink(verb, noun) || ThemesMatch(verb, GetThemeForLexeme(verb, ctx), GetThemeForLexeme(noun, ctx))
    ensures IsCompatible(verb, noun, ctx, s1) && IsCompatible(verb, noun, ctx, s2)
  {
    IsCompatibleCases(verb, noun, ctx, s1);
    IsCompatibleCases(verb, noun, ctx, s2);
  }

  /** The test `findCompatibleNouns` applies to each noun. */
  function TakesNoun(verb: Lexeme, ctx: ThemeContext, stored: map<string, bool>): Lexeme -> bool {
    n => IsCompatible(verb, n, ctx, stored)
  }

  /** The test `findCompatibleVerbs` applies to each verb. */
  function TakenByVerb(noun: Lexeme, ctx: ThemeContext, stored: map<string, bool>): Lexeme -> bool {
    v => IsCompatible(v, noun, ctx, stored)
  }

  /** `findCompatibleNouns(verb, nouns, ...)`: the nouns the verb takes, in order. */
  method FindCompatibleNouns(verb: Lexeme, nouns: seq<Lexeme>, ctx: ThemeContext, store: CompatibilityStore)
    returns (compatible: seq<Lexeme>)
    ensures var stored := store.Load();
      compatible == Filter(nouns, TakesNoun(verb, ctx, stored))
  {
    var stored := store.Load();
    var takes := TakesNoun(verb, ctx, stored);
    compatible := [];
    for i := 0 to |nouns|
      invariant compatible == Filter(nouns[..i], takes)
    {
      FilterPrefixStep(nouns, i, takes);
      if takes(nouns[i]) {
        compatible := compatible + [nouns[i]];
      }
    }
    assert nouns[..|nouns|] == nouns;
  }

  /** `findCompatibleVerbs(noun, verbs, ...)`: the verbs that take the noun, in order. */
  method FindCompatibleVerbs(noun: Lexeme, verbs: seq<Lexeme>, ctx: ThemeContext, store: CompatibilityStore)
    returns (compatible: seq<Lexeme>)
    ensures var stored := store.Load();
      compatible == Filter(verbs, TakenByVerb(noun, ctx, stored))
  {
    var stored := store.Load();
    var takes := TakenByVerb(noun, ctx, stored);
    compatible := [];
    for i := 0 to |verbs|
      invariant compatible == Filter(verbs[..i], takes)
    {
      FilterPrefixStep(verbs, i, takes);
      if takes(verbs[i]) {
        compatible := compatible + [verbs[i]];
      }
    }
    assert verbs[..|verbs|] == verbs;
  }

  /** `storeCompatibilityPattern(verbId, nounId, isCompatible)`: a learned pattern goes to the store. */
  method StoreCompatibilityPattern(store: CompatibilityStore, verbId: int, nounId: int, isCompatible: bool)
    modifies store
    ensures store.slot == Saved(Apply(old(store.Load()), PatternEntry(verbId, nounId, isCompatible)))
  {
    store.Save(verbId, nounId, isCompatible);
  }

  // ---------------------------------------------------------------------
  // Lexeme-id → pack-id map.

  /** Every id of `ids` mapped to `packId`, over `m`. */
  function MapAll(m: map<int, int>, ids: seq<int>, packId: int): (r: map<int, int>)
    ensures r.Keys == m.Keys + (set id | id in ids)
    ensures forall id :: id in r ==> r[id] == (if id in ids then packId else m[id])
  {
    map id | id in m.Keys + (set x | x in ids) :: if id in ids then packId else m[id]
  }

  /** The map `buildLexemeToPackMap` fills, pack by pack. */
  function LexemeToPackMap(packs: seq<VocabPack>): map<int, int>
    decreases |packs|
  {
    if packs == [] then map[]
    else
      var last := packs[|packs| - 1];
      MapAll(LexemeToPackMap(packs[..|packs| - 1]), last.associatedLexemes, last.packId)
  }

  /** Mapping one more id is an update of the map so far. */
  lemma MapAllSnoc(m: map<int, int>, ids: seq<int>, x: int, packId: int)
    ensures MapAll(m, ids + [x], packId) == MapAll(m, ids, packId)[x := packId]
  {
    var l, r := MapAll(m, ids + [x], packId), MapAll(m, ids, packId)[x := packId];
    assert l.Keys == r.Keys;
    forall id | id in l ensures l[id] == r[id] {
      assert id in ids + [x] <==> id in ids || id == x;
    }
  }

  /** The inner loop of `buildLexemeToPackMap`: every id of one pack mapped to the pack. */
  method MapPackLexemes(m0: map<int, int>, ids: seq<int>, packId: int) returns (m: map<int, int>)
    ensures m == MapAll(m0, ids, packId)
  {
    m := m0;
    for j := 0 to |ids|
      invariant m == MapAll(m0, ids[..j], packId)
    {
      assert ids[..j + 1] == ids[..j] + [ids[j]];
      MapAllSnoc(m0, ids[..j], ids[j], packId);
      m := m[ids[j] := packId];
    }
    assert ids[..|ids|] == ids;
  }

  /** `buildLexemeToPackMap(vocabPacks)` */
  method BuildLexemeToPackMap(packs: seq<VocabPack>) returns (m: map<int, int>)
    ensures m == LexemeToPackMap(packs)
  {
    m := map[];
    for i := 0 to |packs|
      invariant m == LexemeToPackMap(packs[..i])
    {
      assert packs[..i + 1][..i] == packs[..i];
      m := MapPackLexemes(m, packs[i].associatedLexemes, packs[i].packId);
    }
    assert packs[..|packs|] == packs;
  }

  /**
   * A lexeme is in the map exactly when some pack lists it, and it maps to the id of the
   * last pack that does.
   */
  lemma {:induction false} LexemeToPackMapLastWins(packs: seq<VocabPack>, lexemeId: int)
    ensures lexemeId in LexemeToPackMap(packs) <==> exists i :: 0 <= i < |packs| && lexemeId in packs[i].associatedLexemes
    ensures lexemeId in LexemeToPackMap(packs) ==>
      exists i :: (0 <= i < |packs| && lexemeId in packs[i].associatedLexemes
        && LexemeToPackMap(packs)[lexemeId] == packs[i].packId
        && forall j :: i < j < |packs| ==> lexemeId !in packs[j].associatedLexemes)
    decreases |packs|
  {
    if packs != [] {
      var init := packs[..|packs| - 1];
      LexemeToPackMapLastWins(init, lexemeId);
      assert forall i :: 0 <= i < |init| ==> init[i] == packs[i];
    }
  }

  // ---------------------------------------------------------------------
  // Pair search.

  /** Every noun `findCompatibleNouns` returns is one of the nouns, and the verb takes it. */
  lemma TakenNoun(verb: Lexeme, nouns: seq<Lexeme>, ctx: ThemeContext, stored: map<string, bool>, compatible: seq<Lexeme>, k: nat)
    requires compatible == Filter(nouns, TakesNoun(verb, ctx, stored)) && k < |compatible|
    ensures compatible[k] in nouns && IsCompatible(verb, compatible[k], ctx, stored)
  {
    assert compatible[k] in compatible;
  }

  /** Every verb of `verbs` comes back from `findCompatibleNouns` with nothing. */
  predicate NoVerbTakes(verbs: seq<Lexeme>, nouns: seq<Lexeme>, ctx: ThemeContext, stored: map<string, bool>)
    decreases |verbs|
  {
    verbs == []
    || (NoVerbTakes(verbs[..|verbs| - 1], nouns, ctx, stored)
        && Filter(nouns, TakesNoun(verbs[|verbs| - 1], ctx, stored)) == [])
  }

  /** When every verb's compatible nouns are empty, no verb is compatible with any noun. */
  lemma {:induction false} NoVerbTakesAny(verbs: seq<Lexeme>, nouns: seq<Lexeme>, ctx: ThemeContext, stored: map<string, bool>, v: Lexeme, n: Lexeme)
    requires NoVerbTakes(verbs, nouns, ctx, stored)
    requires v in verbs && n in nouns
    ensures !IsCompatible(v, n, ctx, stored)
    decreases |verbs|
  {
    var last := verbs[|verbs| - 1];
    if v == last {
      assert n !in Filter(nouns, TakesNoun(last, ctx, stored));
    } else {
      InitLast(verbs);
      NoVerbTakesAny(verbs[..|verbs| - 1], nouns, ctx, stored, v, n);
    }
  }

  datatype VerbNounPair = VerbNounPair(verb: Lexeme, noun: Lexeme)

  /**
   * The loop of `findCompatiblePair`: the first verb, in list order, whose compatible
   * nouns are not empty, paired with one of them.
   */
  method FirstCompatiblePair(verbs: seq<Lexeme>, nouns: seq<Lexeme>, ctx: ThemeContext, store: CompatibilityStore, rng: RandomSource)
    returns (r: Option<VerbNounPair>)
    modifies rng
    ensures r.Some? ==>
      (r.value.verb in verbs && r.value.noun in Filter(nouns, TakesNoun(r.value.verb, ctx, store.Load())))
    ensures r.None? ==> NoVerbTakes(verbs, nouns, ctx, store.Load())
  {
    var stored := store.Load();
    for i := 0 to |verbs|
      invariant NoVerbTakes(verbs[..i], nouns, ctx, stored)
    {
      var verb := verbs[i];
      InitLast(verbs[..i + 1]);
      assert verbs[..i + 1][..i] == verbs[..i];
      var compatibleNouns := FindCompatibleNouns(verb, nouns, ctx, store);
      if |compatibleNouns| > 0 {
        var pick := rng.Below(|compatibleNouns|);
        assert compatibleNouns[pick] in compatibleNouns;
        return Some(VerbNounPair(verb, compatibleNouns[pick]));
      }
    }
    assert verbs[..|verbs|] == verbs;
    return None;
  }

  /**
   * `findCompatiblePair(verbs, nouns, ...)`: both lists in random order; the first verb
   * with any compatible noun is paired with a random one of them. Reads the store and
   * never writes it.
   */
  method FindCompatiblePair(verbs: seq<Lexeme>, nouns: seq<Lexeme>, ctx: ThemeContext, store: CompatibilityStore, rng: RandomSource)
    returns (r: Option<VerbNounPair>)
    modifies rng
    ensures verbs == [] || nouns == [] ==> r.None?
    ensures r.Some? ==>
      (r.value.verb in verbs && r.value.noun in nouns && IsCompatible(r.value.verb, r.value.noun, ctx, store.Load()))
    ensures r.None? ==> forall v, n :: v in verbs && n in nouns ==> !IsCompatible(v, n, ctx, store.Load())
  {
    if |verbs| == 0 || |nouns| == 0 {
      return None;
    }
    var shuffledVerbs := Shuffle(verbs, rng);
    var shuffledNouns := Shuffle(nouns, rng);
    PermutationMembership(shuffledVerbs, verbs);
    PermutationMembership(shuffledNouns, nouns);
    r := FirstCompatiblePair(shuffledVerbs, shuffledNouns, ctx, store, rng);
    if r.Some? {
      var compatible := Filter(shuffledNouns, TakesNoun(r.value.verb, ctx, store.Load()));
      var k :| 0 <= k < |compatible| && compatible[k] == r.value.noun;
      TakenNoun(r.value.verb, shuffledNouns, ctx, store.Load(), compatible, k);
    } else {
      forall v, n | v in verbs && n in nouns
        ensures !IsCompatible(v, n, ctx, store.Load())
      {
        NoVerbTakesAny(shuffledVerbs, shuffledNouns, ctx, store.Load(), v, n);
      }
    }
  }
}
