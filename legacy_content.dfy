/**
 * The earlier content tables, where a module and a pack carry their lexemes
 * themselves rather than lexeme ids, and their two lookups.
 */
module LegacyContent {
  import opened Models
  import opened Seqs
  import Content

  datatype LegacyModule = LegacyModule(moduleNumber: int, lexemes: seq<Lexeme>, associatedGrammar: seq<int>)

  datatype LegacyPack = LegacyPack(packId: int, prerequisiteModule: int, lexemes: seq<Lexeme>)

  /** `GRAMMAR_RULES`, `MODULES` and `VOCAB_PACKS`. */
  datatype LegacyTables = LegacyTables(
    grammarRules: seq<GrammarRule>,
    modules: seq<LegacyModule>,
    vocabPacks: seq<LegacyPack>)

  /** Position of the first module with the number, or `|mods|` when there is none. */
  function ModuleIndex(mods: seq<LegacyModule>, moduleNumber: int): (i: nat)
    ensures i <= |mods|
    ensures i < |mods| ==> mods[i].moduleNumber == moduleNumber
    ensures forall j :: 0 <= j < i ==> mods[j].moduleNumber != moduleNumber
  {
    FirstIndex(mods, (x: LegacyModule) => x.moduleNumber == moduleNumber)
  }

  /** `MODULES.find(m => m.module_number === moduleNumber)` */
  function FindModule(mods: seq<LegacyModule>, moduleNumber: int): (r: Option<LegacyModule>)
    ensures r.Some? ==> r.value in mods && r.value.moduleNumber == moduleNumber
    ensures r.None? <==> forall m :: m in mods ==> m.moduleNumber != moduleNumber
  {
    var i := ModuleIndex(mods, moduleNumber);
    if i < |mods| then Some(mods[i]) else None
  }

  /** Position of the first pack with the id, or `|packs|` when there is none. */
  function PackIndex(packs: seq<LegacyPack>, packId: int): (i: nat)
    ensures i <= |packs|
    ensures i < |packs| ==> packs[i].packId == packId
    ensures forall j :: 0 <= j < i ==> packs[j].packId != packId
  {
    FirstIndex(packs, (x: LegacyPack) => x.packId == packId)
  }

  /** `VOCAB_PACKS.find(p => p.pack_id === packId)` */
  function FindPack(packs: seq<LegacyPack>, packId: int): (r: Option<LegacyPack>)
    ensures r.Some? ==> r.value in packs && r.value.packId == packId
    ensures r.None? <==> forall p :: p in packs ==> p.packId != packId
  {
    var i := PackIndex(packs, packId);
    if i < |packs| then Some(packs[i]) else None
  }

  predicate Unlocked(packs: seq<LegacyPack>, moduleNumber: int, packId: int) {
    FindPack(packs, packId).Some? && FindPack(packs, packId).value.prerequisiteModule <= moduleNumber
  }

  /** The lexemes the active packs add to module `moduleNumber`, pack by pack. */
  function PackLexemes(packs: seq<LegacyPack>, moduleNumber: int, packIds: seq<int>): (r: seq<Lexeme>)
    decreases |packIds|
  {
    if packIds == [] then []
    else
      var last := packIds[|packIds| - 1];
      PackLexemes(packs, moduleNumber, packIds[..|packIds| - 1])
        + (if Unlocked(packs, moduleNumber, last) then FindPack(packs, last).value.lexemes else [])
  }

  /** Every lexeme a pack adds belongs to an unlocked pack among the active ones. */
  lemma {:induction false} PackLexemesComeFromUnlockedPacks(packs: seq<LegacyPack>, moduleNumber: int, packIds: seq<int>, l: Lexeme)
    requires l in PackLexemes(packs, moduleNumber, packIds)
    ensures exists packId :: (packId in packIds && Unlocked(packs, moduleNumber, packId)
      && l in FindPack(packs, packId).value.lexemes)
    decreases |packIds|
  {
    var init := packIds[..|packIds| - 1];
    if l in PackLexemes(packs, moduleNumber, init) {
      PackLexemesComeFromUnlockedPacks(packs, moduleNumber, init, l);
      var p :| p in init && Unlocked(packs, moduleNumber, p) && l in FindPack(packs, p).value.lexemes;
      assert p in packIds;
    } else {
      assert packIds[|packIds| - 1] in packIds;
    }
  }

  /**
   * `getLexemesByModule(moduleNumber, activePackIds)`: nothing for an unknown
   * module; else a copy of the module's lexemes followed by what the packs add.
   */
  function LexemesByModule(t: LegacyTables, moduleNumber: int, packIds: seq<int>): (r: seq<Lexeme>)
    ensures FindModule(t.modules, moduleNumber).None? ==> r == []
    ensures FindModule(t.modules, moduleNumber).Some? ==>
      var own := FindModule(t.modules, moduleNumber).value.lexemes;
      |own| <= |r| && r[..|own|] == own && r[|own|..] == PackLexemes(t.vocabPacks, moduleNumber, packIds)
  {
    match FindModule(t.modules, moduleNumber)
    case None => []
    case Some(m) =>
      AppendHalves(m.lexemes, PackLexemes(t.vocabPacks, moduleNumber, packIds));
      m.lexemes + PackLexemes(t.vocabPacks, moduleNumber, packIds)
  }

  /** The lookup as the source writes it: a loop over the active pack ids. */
  method GetLexemesByModule(t: LegacyTables, moduleNumber: int, packIds: seq<int>) returns (lexemes: seq<Lexeme>)
    ensures lexemes == LexemesByModule(t, moduleNumber, packIds)
  {
    var m := FindModule(t.modules, moduleNumber);
    if m.None? {
      return [];
    }
    var own := m.value.lexemes;
    lexemes := own;
    for i := 0 to |packIds|
      invariant lexemes == own + PackLexemes(t.vocabPacks, moduleNumber, packIds[..i])
    {
      assert packIds[..i + 1][..i] == packIds[..i];
      assert packIds[..i + 1][i] == packIds[i];
      var pack := FindPack(t.vocabPacks, packIds[i]);
      ghost var before := PackLexemes(t.vocabPacks, moduleNumber, packIds[..i]);
      if pack.Some? && pack.value.prerequisiteModule <= moduleNumber {
        AppendAssoc(own, before, pack.value.lexemes);
        lexemes := lexemes + pack.value.lexemes;
      }
    }
    assert packIds[..|packIds|] == packIds;
  }

  /** `getGrammarRulesByModule(moduleNumber)`: the listed rules in table order, or nothing for an unknown module. */
  function GrammarRulesByModule(t: LegacyTables, moduleNumber: int): (r: seq<GrammarRule>)
    ensures FindModule(t.modules, moduleNumber).None? ==> r == []
    ensures FindModule(t.modules, moduleNumber).Some? ==> forall g :: g in r <==>
      g in t.grammarRules && g.ruleId in FindModule(t.modules, moduleNumber).value.associatedGrammar
  {
    match FindModule(t.modules, moduleNumber)
    case None => []
    case Some(m) => Content.RulesListed(t.grammarRules, m.associatedGrammar)
  }
}
