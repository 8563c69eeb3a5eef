/**
 * The earlier progress context: missed questions kept as bare exercise ids,
 * de-duplicated through a `Set`, and the same pack toggle as the current one.
 */
module LegacyUserContext {
  import opened Seqs
  import opened UserContext

  /** The record the earlier context holds. */
  datatype LegacyProgress = LegacyProgress(
    userId: int,
    currentModule: int,
    streakCount: int,
    missedQuestionIds: seq<int>,
    activeVocabPacks: seq<int>,
    module0Complete: bool)

  /** `[...new Set([...ids, exerciseId])]`: the ids once each, in first-occurrence order, with the new id. */
  function AddMissedId(ids: seq<int>, exerciseId: int): (r: seq<int>)
    ensures NoDup(r)
    ensures forall id :: id in r <==> id in ids || id == exerciseId
  {
    Dedup(ids + [exerciseId])
  }

  /** On a duplicate-free list, adding is a no-op for a present id and an append otherwise. */
  lemma AddMissedIdOfNoDup(ids: seq<int>, exerciseId: int)
    requires NoDup(ids)
    ensures exerciseId in ids ==> AddMissedId(ids, exerciseId) == ids
    ensures exerciseId !in ids ==> AddMissedId(ids, exerciseId) == ids + [exerciseId]
  {
    assert (ids + [exerciseId])[..|ids|] == ids;
    DedupOfNoDup(ids);
  }

  /** `ids.filter(id => id !== exerciseId)` */
  function RemoveMissedId(ids: seq<int>, exerciseId: int): (r: seq<int>)
    ensures exerciseId !in r
    ensures forall id :: id != exerciseId ==> (id in r <==> id in ids)
  {
    Filter(ids, NotEqual(exerciseId))
  }

  /**
   * Removing works id by id: it distributes over concatenation, and a single id is kept
   * exactly when it differs. So the kept ids stay in order, with their multiplicity.
   */
  lemma RemoveMissedIdAppend(a: seq<int>, b: seq<int>, id: int, exerciseId: int)
    ensures RemoveMissedId(a + b, exerciseId) == RemoveMissedId(a, exerciseId) + RemoveMissedId(b, exerciseId)
    ensures RemoveMissedId([id], exerciseId) == if id == exerciseId then [] else [id]
  {
    FilterAppend(a, b, NotEqual(exerciseId));
    assert [id][1..] == [];
  }

  /** Removing keeps the list duplicate-free and drops exactly one entry when the id was there. */
  lemma RemoveMissedIdOfNoDup(ids: seq<int>, exerciseId: int)
    requires NoDup(ids)
    ensures NoDup(RemoveMissedId(ids, exerciseId))
    ensures exerciseId in ids ==> |RemoveMissedId(ids, exerciseId)| == |ids| - 1
    ensures exerciseId !in ids ==> RemoveMissedId(ids, exerciseId) == ids
  {
    FilterNoDup(ids, NotEqual(exerciseId));
    if exerciseId in ids {
      FilterOutOne(ids, exerciseId);
    } else {
      FilterKeepsAll(ids, NotEqual(exerciseId));
    }
  }

  class LegacyUserStore {
    var userData: LegacyProgress

    /** The initial record: user 1, module 1, no streak, nothing missed, no packs. */
    constructor ()
      ensures userData == LegacyProgress(1, 1, 0, [], [], false)
    {
      userData := LegacyProgress(1, 1, 0, [], [], false);
    }

    method UpdateCurrentModule(moduleId: int)
      modifies this
      ensures userData == old(userData).(currentModule := moduleId)
    {
      userData := userData.(currentModule := moduleId);
    }

    method AddMissedQuestion(exerciseId: int)
      modifies this
      ensures userData == old(userData).(missedQuestionIds := AddMissedId(old(userData).missedQuestionIds, exerciseId))
    {
      userData := userData.(missedQuestionIds := AddMissedId(userData.missedQuestionIds, exerciseId));
    }

    method RemoveMissedQuestion(exerciseId: int)
      modifies this
      ensures userData == old(userData).(missedQuestionIds := RemoveMissedId(old(userData).missedQuestionIds, exerciseId))
    {
      userData := userData.(missedQuestionIds := RemoveMissedId(userData.missedQuestionIds, exerciseId));
    }

    method ToggleVocabPackMethod(packId: int)
      modifies this
      ensures userData == old(userData).(activeVocabPacks := ToggleVocabPack(old(userData).activeVocabPacks, packId))
    {
      userData := userData.(activeVocabPacks := ToggleVocabPack(userData.activeVocabPacks, packId));
    }

    method IncrementStreak()
      modifies this
      ensures userData == old(userData).(streakCount := old(userData).streakCount + 1)
    {
      userData := userData.(streakCount := userData.streakCount + 1);
    }

    method CompleteModule0()
      modifies this
      ensures userData == old(userData).(module0Complete := true)
    {
      userData := userData.(module0Complete := true);
    }
  }
}
