/**
 * Curriculum lookups over the static content tables: lexemes by id, by module
 * (with vocabulary packs gated by their prerequisite module), by section;
 * grammar rules by module and by section; everything learned up to a module;
 * chapters by number. The tables themselves are a `Tables` value, so every
 * property below holds for any content, not just the shipped one.
 */
module Content {
  import opened Seqs
  import opened Models
  import opened ThemeHelper

  /** `getAllLexemes()`, `GRAMMAR_RULES`, `MODULES`, `CHAPTERS` and `VOCAB_PACKS`. */
  datatype Tables = Tables(
    lexemes: seq<Lexeme>,
    grammarRules: seq<GrammarRule>,
    modules: seq<CurriculumModule>,
    chapters: seq<Chapter>,
    vocabPacks: seq<VocabPack>)

  /** Position of the first lexeme with the id, or `|all|` when there is none. */
  function LexemeIndex(all: seq<Lexeme>, id: int): (i: nat)
    ensures i <= |all|
    ensures i < |all| ==> all[i].lexemeId == id
    ensures forall j :: 0 <= j < i ==> all[j].lexemeId != id
  {
    FirstIndex(all, (x: Lexeme) => x.lexemeId == id)
  }

  /** `allLexemes.find(lex => lex.lexeme_id === id)` */
  function FindLexeme(all: seq<Lexeme>, id: int): (r: Option<Lexeme>)
    ensures r.Some? ==> r.value in all && r.value.lexemeId == id
    ensures r.None? <==> forall l :: l in all ==> l.lexemeId != id
  {
    var i := LexemeIndex(all, id);
    if i < |all| then Some(all[i]) else None
  }

  /** Each lexeme of `ls` is the table's first entry with its id. */
  predicate Canonical(all: seq<Lexeme>, ls: seq<Lexeme>) {
    forall k :: 0 <= k < |ls| ==> FindLexeme(all, ls[k].lexemeId) == Some(ls[k])
  }

  lemma CanonicalAppend(all: seq<Lexeme>, a: seq<Lexeme>, b: seq<Lexeme>)
    requires Canonical(all, a) && Canonical(all, b)
    ensures Canonical(all, a + b)
  {
    forall k | 0 <= k < |a + b|
      ensures FindLexeme(all, (a + b)[k].lexemeId) == Some((a + b)[k])
    {
      if k >= |a| {
        assert (a + b)[k] == b[k - |a|];
      }
    }
  }

  lemma LexemeIdsAppend(a: seq<Lexeme>, b: seq<Lexeme>)
    ensures LexemeIds(a + b) == LexemeIds(a) + LexemeIds(b)
  {
  }

  function KnownIn(all: seq<Lexeme>): int -> bool {
    (id: int) => FindLexeme(all, id).Some?
  }

  /**
   * `getLexemesByIds(ids)`: one lexeme per id the table knows, in the order of
   * `ids`, unknown ids dropped; each is the table's first entry with that id.
   */
  function LexemesByIds(all: seq<Lexeme>, ids: seq<int>): (r: seq<Lexeme>)
    ensures LexemeIds(r) == Filter(ids, KnownIn(all))
    ensures Canonical(all, r)
    decreases |ids|
  {
    if ids == [] then []
    else
      var rest := LexemesByIds(all, ids[1..]);
      match FindLexeme(all, ids[0])
      case Some(l) =>
        LexemeIdsAppend([l], rest);
        CanonicalAppend(all, [l], rest);
        [l] + rest
      case None => rest
  }

  /** Position of the first module with the number, or `|mods|` when there is none. */
  function ModuleIndex(mods: seq<CurriculumModule>, moduleNumber: int): (i: nat)
    ensures i <= |mods|
    ensures i < |mods| ==> mods[i].moduleNumber == moduleNumber
    ensures forall j :: 0 <= j < i ==> mods[j].moduleNumber != moduleNumber
  {
    FirstIndex(mods, (x: CurriculumModule) => x.moduleNumber == moduleNumber)
  }

  /** `MODULES.find(m => m.module_number === moduleNumber)` */
  function FindModule(mods: seq<CurriculumModule>, moduleNumber: int): (r: Option<CurriculumModule>)
    ensures r.Some? ==> r.value in mods && r.value.moduleNumber == moduleNumber
    ensures r.None? <==> forall m :: m in mods ==> m.moduleNumber != moduleNumber
  {
    var i := ModuleIndex(mods, moduleNumber);
    if i < |mods| then Some(mods[i]) else None
  }

  /** That pack exists and its prerequisite module is at most `moduleNumber`. */
  predicate Unlocked(packs: seq<VocabPack>, moduleNumber: int, packId: int) {
    FindPack(packs, packId).Some? && FindPack(packs, packId).value.prerequisiteModule <= moduleNumber
  }

  /** What one active pack id adds to the lexemes of module `moduleNumber`. */
  function PackContribution(t: Tables, moduleNumber: int, packId: int): (r: seq<Lexeme>)
    ensures !Unlocked(t.vocabPacks, moduleNumber, packId) ==> r == []
    ensures Canonical(t.lexemes, r)
  {
    if Unlocked(t.vocabPacks, moduleNumber, packId)
    then LexemesByIds(t.lexemes, FindPack(t.vocabPacks, packId).value.associatedLexemes)
    else []
  }

  /** The lexemes the active packs add, pack by pack in `packIds` order. */
  function PackLexemes(t: Tables, moduleNumber: int, packIds: seq<int>): (r: seq<Lexeme>)
    ensures Canonical(t.lexemes, r)
    decreases |packIds|
  {
    if packIds == [] then []
    else
      var init := PackLexemes(t, moduleNumber, packIds[..|packIds| - 1]);
      var last := PackContribution(t, moduleNumber, packIds[|packIds| - 1]);
      CanonicalAppend(t.lexemes, init, last);
      init + last
  }

  /** Every lexeme a pack adds comes from an unlocked active pack that lists its id. */
  lemma {:induction false} PackLexemesComeFromUnlockedPacks(t: Tables, moduleNumber: int, packIds: seq<int>, l: Lexeme)
    requires l in PackLexemes(t, moduleNumber, packIds)
    ensures exists packId :: (packId in packIds && Unlocked(t.vocabPacks, moduleNumber, packId)
      && l.lexemeId in FindPack(t.vocabPacks, packId).value.associatedLexemes)
    decreases |packIds|
  {
    var init := packIds[..|packIds| - 1];
    var packId := packIds[|packIds| - 1];
    var c := PackContribution(t, moduleNumber, packId);
    if l in PackLexemes(t, moduleNumber, init) {
      PackLexemesComeFromUnlockedPacks(t, moduleNumber, init, l);
      var p :| p in init && Unlocked(t.vocabPacks, moduleNumber, p)
        && l.lexemeId in FindPack(t.vocabPacks, p).value.associatedLexemes;
      assert p in packIds;
    } else {
      assert l in c;
      var ids := FindPack(t.vocabPacks, packId).value.associatedLexemes;
      var k :| 0 <= k < |c| && c[k] == l;
      assert LexemeIds(c)[k] == l.lexemeId;
      assert l.lexemeId in Filter(ids, KnownIn(t.lexemes));
    }
  }

  /** One more active pack id appends what that pack contributes. */
  lemma AppendContribution(t: Tables, moduleNumber: int, packIds: seq<int>, i: nat, own: seq<Lexeme>)
    requires i < |packIds|
    ensures own + PackLexemes(t, moduleNumber, packIds[..i]) + PackContribution(t, moduleNumber, packIds[i])
      == own + PackLexemes(t, moduleNumber, packIds[..i + 1])
  {
    assert packIds[..i + 1][..i] == packIds[..i];
    AppendAssoc(own, PackLexemes(t, moduleNumber, packIds[..i]), PackContribution(t, moduleNumber, packIds[i]));
  }

  /** A pack that is missing or not yet unlocked adds nothing. */
  lemma LockedPackAddsNothing(t: Tables, moduleNumber: int, packIds: seq<int>, packId: int)
    requires !Unlocked(t.vocabPacks, moduleNumber, packId)
    ensures PackLexemes(t, moduleNumber, packIds + [packId]) == PackLexemes(t, moduleNumber, packIds)
  {
    assert (packIds + [packId])[..|packIds|] == packIds;
  }

  /**
   * `getLexemesByModule(moduleNumber, activePackIds)`: nothing for an unknown
   * module; else the module's own lexemes followed by what the packs add.
   */
  function LexemesByModule(t: Tables, moduleNumber: int, packIds: seq<int>): (r: seq<Lexeme>)
    ensures FindModule(t.modules, moduleNumber).None? ==> r == []
    ensures FindModule(t.modules, moduleNumber).Some? ==>
      var own := LexemesByIds(t.lexemes, FindModule(t.modules, moduleNumber).value.associatedLexemes);
      |own| <= |r| && r[..|own|] == own && r[|own|..] == PackLexemes(t, moduleNumber, packIds)
    ensures Canonical(t.lexemes, r)
  {
    match FindModule(t.modules, moduleNumber)
    case None => []
    case Some(m) =>
      var own := LexemesByIds(t.lexemes, m.associatedLexemes);
      var packs := PackLexemes(t, moduleNumber, packIds);
      CanonicalAppend(t.lexemes, own, packs);
      AppendHalves(own, packs);
      own + packs
  }

  /** The same lookup as the source writes it: a loop over the active pack ids. */
  method GetLexemesByModule(t: Tables, moduleNumber: int, packIds: seq<int>) returns (lexemes: seq<Lexeme>)
    ensures lexemes == LexemesByModule(t, moduleNumber, packIds)
  {
    var m := FindModule(t.modules, moduleNumber);
    if m.None? {
      return [];
    }
    var own := LexemesByIds(t.lexemes, m.value.associatedLexemes);
    lexemes := own;
    for i := 0 to |packIds|
      invariant lexemes == own + PackLexemes(t, moduleNumber, packIds[..i])
    {
      AppendContribution(t, moduleNumber, packIds, i, own);
      var pack := FindPack(t.vocabPacks, packIds[i]);
      if pack.Some? && pack.value.prerequisiteModule <= moduleNumber {
        lexemes := lexemes + LexemesByIds(t.lexemes, pack.value.associatedLexemes);
      } else {
        assert lexemes + PackContribution(t, moduleNumber, packIds[i]) == lexemes;
      }
    }
    assert packIds[..|packIds|] == packIds;
  }

  /** Position of the first section with the id, or `|sections|` when there is none. */
  function SectionIndex(sections: seq<Section>, sectionId: int): (i: nat)
    ensures i <= |sections|
    ensures i < |sections| ==> sections[i].sectionId == sectionId
    ensures forall j :: 0 <= j < i ==> sections[j].sectionId != sectionId
  {
    FirstIndex(sections, (x: Section) => x.sectionId == sectionId)
  }

  /** `sections.find(s => s.section_id === sectionId)` */
  function FindSection(sections: seq<Section>, sectionId: int): (r: Option<Section>)
    ensures r.Some? ==> r.value in sections && r.value.sectionId == sectionId
    ensures r.None? <==> forall s :: s in sections ==> s.sectionId != sectionId
  {
    var i := SectionIndex(sections, sectionId);
    if i < |sections| then Some(sections[i]) else None
  }

  /** Position of the first module holding a section with the id, or `|mods|` when none does. */
  function ModuleSectionIndex(mods: seq<CurriculumModule>, sectionId: int): (i: nat)
    ensures i <= |mods|
    ensures i < |mods| ==> FindSection(mods[i].sections, sectionId).Some?
    ensures forall j :: 0 <= j < i ==> FindSection(mods[j].sections, sectionId).None?
  {
    FirstIndex(mods, (m: CurriculumModule) => FindSection(m.sections, sectionId).Some?)
  }

  /** The section with the id in the first module, in table order, that has one. */
  function ModuleSection(mods: seq<CurriculumModule>, sectionId: int): (r: Option<Section>)
    ensures r.None? <==> forall m :: m in mods ==> FindSection(m.sections, sectionId).None?
    ensures r.Some? ==> var i := ModuleSectionIndex(mods, sectionId);
      i < |mods| && r == FindSection(mods[i].sections, sectionId) && r.value in mods[i].sections
      && r.value.sectionId == sectionId
  {
    var i := ModuleSectionIndex(mods, sectionId);
    if i < |mods| then FindSection(mods[i].sections, sectionId) else None
  }

  /** Position of the first chapter holding a section with the id, or `|chapters|` when none does. */
  function ChapterSectionIndex(chapters: seq<Chapter>, sectionId: int): (i: nat)
    ensures i <= |chapters|
    ensures i < |chapters| ==> FindSection(chapters[i].sections, sectionId).Some?
    ensures forall j :: 0 <= j < i ==> FindSection(chapters[j].sections, sectionId).None?
  {
    FirstIndex(chapters, (c: Chapter) => FindSection(c.sections, sectionId).Some?)
  }

  /** The section with the id in the first chapter, in table order, that has one. */
  function ChapterSection(chapters: seq<Chapter>, sectionId: int): (r: Option<Section>)
    ensures r.None? <==> forall c :: c in chapters ==> FindSection(c.sections, sectionId).None?
    ensures r.Some? ==> var i := ChapterSectionIndex(chapters, sectionId);
      i < |chapters| && r == FindSection(chapters[i].sections, sectionId) && r.value in chapters[i].sections
      && r.value.sectionId == sectionId
  {
    var i := ChapterSectionIndex(chapters, sectionId);
    if i < |chapters| then FindSection(chapters[i].sections, sectionId) else None
  }

  /**
   * The section both section lookups resolve: modules are searched before
   * chapters, so a module section shadows a chapter section with the same id.
   */
  function SectionById(t: Tables, sectionId: int): (r: Option<Section>)
    ensures ModuleSection(t.modules, sectionId).Some? ==> r == ModuleSection(t.modules, sectionId)
    ensures ModuleSection(t.modules, sectionId).None? ==> r == ChapterSection(t.chapters, sectionId)
    ensures r.Some? ==> r.value.sectionId == sectionId
    ensures r.Some? ==>
      (exists m :: m in t.modules && r.value in m.sections) || (exists c :: c in t.chapters && r.value in c.sections)
    ensures r.None? <==>
      (forall m :: m in t.modules ==> FindSection(m.sections, sectionId).None?) &&
      (forall c :: c in t.chapters ==> FindSection(c.sections, sectionId).None?)
  {
    match ModuleSection(t.modules, sectionId)
    case Some(s) => Some(s)
    case None => ChapterSection(t.chapters, sectionId)
  }

  /** The two `for ... of` loops with early return that both section lookups run. */
  method LookupSection(t: Tables, sectionId: int) returns (r: Option<Section>)
    ensures r == SectionById(t, sectionId)
  {
    for i := 0 to |t.modules|
      invariant forall j :: 0 <= j < i ==> FindSection(t.modules[j].sections, sectionId).None?
    {
      var s := FindSection(t.modules[i].sections, sectionId);
      if s.Some? {
        assert ModuleSectionIndex(t.modules, sectionId) == i;
        return s;
      }
    }
    assert ModuleSectionIndex(t.modules, sectionId) == |t.modules|;
    for i := 0 to |t.chapters|
      invariant forall j :: 0 <= j < i ==> FindSection(t.chapters[j].sections, sectionId).None?
    {
      var s := FindSection(t.chapters[i].sections, sectionId);
      if s.Some? {
        assert ModuleSection(t.modules, sectionId).None?;
        assert ChapterSectionIndex(t.chapters, sectionId) == i;
        return s;
      }
    }
    assert ChapterSectionIndex(t.chapters, sectionId) == |t.chapters|;
    return None;
  }

  /** `getLexemesBySection(sectionId)`: the section's lexemes, or nothing for an unknown section. */
  function LexemesBySection(t: Tables, sectionId: int): (r: seq<Lexeme>)
    ensures SectionById(t, sectionId).None? ==> r == []
    ensures SectionById(t, sectionId).Some? ==>
      LexemeIds(r) == Filter(SectionById(t, sectionId).value.associatedLexemes, KnownIn(t.lexemes))
  {
    match SectionById(t, sectionId)
    case Some(s) => LexemesByIds(t.lexemes, s.associatedLexemes)
    case None => []
  }

  method GetLexemesBySection(t: Tables, sectionId: int) returns (r: seq<Lexeme>)
    ensures r == LexemesBySection(t, sectionId)
  {
    var s := LookupSection(t, sectionId);
    if s.Some? {
      return LexemesByIds(t.lexemes, s.value.associatedLexemes);
    }
    return [];
  }

  function ListedRule(ids: seq<int>): GrammarRule -> bool {
    (rule: GrammarRule) => rule.ruleId in ids
  }

  /** `GRAMMAR_RULES.filter(rule => ids.includes(rule.rule_id))` */
  function RulesListed(rules: seq<GrammarRule>, ids: seq<int>): (r: seq<GrammarRule>)
    ensures forall g :: g in r <==> g in rules && g.ruleId in ids
  {
    Filter(rules, ListedRule(ids))
  }

  /**
   * The rules come out in table order: two id lists with the same members select
   * the same sequence, whatever order the curriculum lists them in.
   */
  lemma RulesFollowTableOrder(rules: seq<GrammarRule>, ids1: seq<int>, ids2: seq<int>)
    requires forall id :: id in ids1 <==> id in ids2
    ensures RulesListed(rules, ids1) == RulesListed(rules, ids2)
  {
    FilterAgrees(rules, ListedRule(ids1), ListedRule(ids2));
  }

  /** `getGrammarRulesByModule(moduleNumber)` */
  function GrammarRulesByModule(t: Tables, moduleNumber: int): (r: seq<GrammarRule>)
    ensures FindModule(t.modules, moduleNumber).None? ==> r == []
    ensures FindModule(t.modules, moduleNumber).Some? ==> forall g :: g in r <==>
      g in t.grammarRules && g.ruleId in FindModule(t.modules, moduleNumber).value.associatedGrammar
  {
    match FindModule(t.modules, moduleNumber)
    case None => []
    case Some(m) => RulesListed(t.grammarRules, m.associatedGrammar)
  }

  /** `getGrammarRulesBySection(sectionId)` */
  function GrammarRulesBySection(t: Tables, sectionId: int): (r: seq<GrammarRule>)
    ensures SectionById(t, sectionId).None? ==> r == []
    ensures SectionById(t, sectionId).Some? ==> forall g :: g in r <==>
      g in t.grammarRules && g.ruleId in SectionById(t, sectionId).value.associatedGrammar
  {
    match SectionById(t, sectionId)
    case None => []
    case Some(s) => RulesListed(t.grammarRules, s.associatedGrammar)
  }

  method GetGrammarRulesBySection(t: Tables, sectionId: int) returns (r: seq<GrammarRule>)
    ensures r == GrammarRulesBySection(t, sectionId)
  {
    var s := LookupSection(t, sectionId);
    if s.Some? {
      return RulesListed(t.grammarRules, s.value.associatedGrammar);
    }
    return [];
  }

  /** The lexemes of modules 1 to `n`, concatenated with their repetitions. */
  function LexemesUpTo(t: Tables, n: int, packIds: seq<int>): (r: seq<Lexeme>)
    ensures Canonical(t.lexemes, r)
    decreases if n < 1 then 0 else n
  {
    if n < 1 then []
    else
      var init := LexemesUpTo(t, n - 1, packIds);
      var last := LexemesByModule(t, n, packIds);
      CanonicalAppend(t.lexemes, init, last);
      init + last
  }

  /** The last lexeme in the list with the id: the value a `Map` built from the list keeps. */
  function LastWithId(ls: seq<Lexeme>, id: int): (l: Lexeme)
    requires id in LexemeIds(ls)
    ensures l in ls && l.lexemeId == id
    ensures exists k :: 0 <= k < |ls| && ls[k] == l && forall j :: k < j < |ls| ==> ls[j].lexemeId != id
    decreases |ls|
  {
    var last := ls[|ls| - 1];
    if last.lexemeId == id then last
    else
      assert LexemeIds(ls) == LexemeIds(ls[..|ls| - 1]) + [last.lexemeId];
      LastWithId(ls[..|ls| - 1], id)
  }

  /**
   * `Array.from(new Map(ls.map(l => [l.lexeme_id, l])).values())`: one lexeme per
   * id, ids in order of first occurrence, each the last entry with its id.
   */
  function UniqueById(ls: seq<Lexeme>): (r: seq<Lexeme>)
    ensures LexemeIds(r) == Dedup(LexemeIds(ls))
    ensures NoDup(LexemeIds(r))
    ensures forall l :: l in r ==> l in ls
  {
    var keys := Dedup(LexemeIds(ls));
    var r := seq(|keys|, i requires 0 <= i < |keys| => LastWithId(ls, keys[i]));
    assert LexemeIds(r) == keys;
    r
  }

  /**
   * `getLearnedLexemes(n, activePackIds)`: every lexeme of modules 1 to `n`, once
   * per id, in order of first appearance; nothing when `n < 1`.
   */
  function LearnedLexemes(t: Tables, n: int, packIds: seq<int>): (r: seq<Lexeme>)
    ensures n < 1 ==> r == []
    ensures NoDup(LexemeIds(r))
    ensures forall id :: id in LexemeIds(r) <==> id in LexemeIds(LexemesUpTo(t, n, packIds))
    ensures Canonical(t.lexemes, r)
  {
    var all := LexemesUpTo(t, n, packIds);
    var r := UniqueById(all);
    assert forall k :: 0 <= k < |r| ==> r[k] in all;
    r
  }

  /** The same as the source writes it: a loop over the module numbers, then the dedup. */
  method GetLearnedLexemes(t: Tables, n: int, packIds: seq<int>) returns (r: seq<Lexeme>)
    ensures r == LearnedLexemes(t, n, packIds)
  {
    var all: seq<Lexeme> := [];
    var i := 1;
    while i <= n
      invariant 1 <= i <= (if n < 1 then 1 else n + 1)
      invariant all == LexemesUpTo(t, i - 1, packIds)
    {
      var moduleLexemes := GetLexemesByModule(t, i, packIds);
      assert LexemesUpTo(t, i, packIds) == LexemesUpTo(t, i - 1, packIds) + moduleLexemes;
      all := all + moduleLexemes;
      i := i + 1;
    }
    assert i - 1 == n || n < 1;
    assert all == LexemesUpTo(t, n, packIds);
    r := UniqueById(all);
  }

  /** Position of the first chapter with the number, or `|chapters|` when there is none. */
  function ChapterIndex(chapters: seq<Chapter>, chapterNumber: int): (i: nat)
    ensures i <= |chapters|
    ensures i < |chapters| ==> chapters[i].chapterNumber == chapterNumber
    ensures forall j :: 0 <= j < i ==> chapters[j].chapterNumber != chapterNumber
  {
    FirstIndex(chapters, (x: Chapter) => x.chapterNumber == chapterNumber)
  }

  /** `getChapterByNumber(n)`: the first chapter with that number, or none. */
  function ChapterByNumber(chapters: seq<Chapter>, chapterNumber: int): (r: Option<Chapter>)
    ensures r.Some? ==> r.value in chapters && r.value.chapterNumber == chapterNumber
    ensures r.None? <==> forall c :: c in chapters ==> c.chapterNumber != chapterNumber
  {
    var i := ChapterIndex(chapters, chapterNumber);
    if i < |chapters| then Some(chapters[i]) else None
  }

  function NumberAtMost(n: int): Chapter -> bool {
    (c: Chapter) => c.chapterNumber <= n
  }

  /** `getChaptersUpTo(n)`: the chapters numbered at most `n`, in table order. */
  function ChaptersUpTo(chapters: seq<Chapter>, n: int): (r: seq<Chapter>)
    ensures forall c :: c in r <==> c in chapters && c.chapterNumber <= n
    ensures |r| <= |chapters|
  {
    Filter(chapters, NumberAtMost(n))
  }

  /**
   * Every chapter up to `m` is a chapter up to any `n >= m`: cutting the chapters up to
   * `n` down to `m` gives the chapters up to `m`, in the same order.
   */
  lemma {:induction false} ChaptersUpToGrows(chapters: seq<Chapter>, m: int, n: int)
    requires m <= n
    ensures ChaptersUpTo(ChaptersUpTo(chapters, n), m) == ChaptersUpTo(chapters, m)
    ensures |ChaptersUpTo(chapters, m)| <= |ChaptersUpTo(chapters, n)|
    decreases |chapters|
  {
    if chapters != [] {
      ChaptersUpToGrows(chapters[1..], m, n);
      var c, rest := chapters[0], ChaptersUpTo(chapters[1..], n);
      assert ChaptersUpTo(chapters, m) == (if c.chapterNumber <= m then [c] else []) + ChaptersUpTo(chapters[1..], m);
      if c.chapterNumber <= n {
        assert ChaptersUpTo(chapters, n) == [c] + rest;
        assert ([c] + rest)[1..] == rest;
        assert ChaptersUpTo([c] + rest, m) == (if c.chapterNumber <= m then [c] else []) + ChaptersUpTo(rest, m);
      } else {
        assert ChaptersUpTo(chapters, n) == rest;
      }
    }
  }
}
