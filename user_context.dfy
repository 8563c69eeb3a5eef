/**
 * The learner's progress as the application context holds it: one `UserProgress`
 * record replaced by each update, and the admin-mode flag beside it.
 */
module UserContext {
  import opened Text
  import opened Seqs
  import opened Models

  /** Some entry of the list is for this exercise. */
  predicate HasExercise(missed: seq<MissedQuestion>, exerciseId: int) {
    exists k :: 0 <= k < |missed| && missed[k].exerciseId == exerciseId
  }

  /** No two entries are for the same exercise. */
  predicate UniqueExercises(missed: seq<MissedQuestion>) {
    forall i, j :: 0 <= i < j < |missed| ==> missed[i].exerciseId != missed[j].exerciseId
  }

  /** The missed-question list after `addMissedQuestion(mq)`: unchanged when the exercise is already there, else `mq` appended. */
  function AddMissed(missed: seq<MissedQuestion>, mq: MissedQuestion): (r: seq<MissedQuestion>)
    ensures HasExercise(missed, mq.exerciseId) ==> r == missed
    ensures !HasExercise(missed, mq.exerciseId) ==> r == missed + [mq]
  {
    if HasExercise(missed, mq.exerciseId) then missed else missed + [mq]
  }

  /** Adding keeps exercise ids unique, and afterwards the exercise is in the list. */
  lemma AddMissedKeepsUnique(missed: seq<MissedQuestion>, mq: MissedQuestion)
    requires UniqueExercises(missed)
    ensures UniqueExercises(AddMissed(missed, mq))
    ensures HasExercise(AddMissed(missed, mq), mq.exerciseId)
  {
    var r := AddMissed(missed, mq);
    if !HasExercise(missed, mq.exerciseId) {
      assert r[|missed|] == mq;
      forall i, j | 0 <= i < j < |r|
        ensures r[i].exerciseId != r[j].exerciseId
      {
        if j == |missed| {
          assert r[i] == missed[i];
        }
      }
    }
  }

  function OtherExercise(exerciseId: int): MissedQuestion -> bool {
    (mq: MissedQuestion) => mq.exerciseId != exerciseId
  }

  /** `removeMissedQuestion(exerciseId)`: every entry for the exercise dropped, the rest in order. */
  function RemoveMissed(missed: seq<MissedQuestion>, exerciseId: int): (r: seq<MissedQuestion>)
    ensures !HasExercise(r, exerciseId)
    ensures forall mq :: mq in r <==> mq in missed && mq.exerciseId != exerciseId
  {
    var r := Filter(missed, OtherExercise(exerciseId));
    assert !HasExercise(r, exerciseId) by {
      forall k | 0 <= k < |r|
        ensures r[k].exerciseId != exerciseId
      {
        assert r[k] in r;
      }
    }
    r
  }

  /**
   * Removing works entry by entry: it distributes over concatenation, and a single entry is
   * kept exactly when it is for another exercise. So the survivors keep their order and
   * their multiplicity.
   */
  lemma RemoveMissedAppend(a: seq<MissedQuestion>, b: seq<MissedQuestion>, mq: MissedQuestion, exerciseId: int)
    ensures RemoveMissed(a + b, exerciseId) == RemoveMissed(a, exerciseId) + RemoveMissed(b, exerciseId)
    ensures RemoveMissed([mq], exerciseId) == if mq.exerciseId == exerciseId then [] else [mq]
  {
    FilterAppend(a, b, OtherExercise(exerciseId));
    assert [mq][1..] == [];
  }

  /** Removing keeps the remaining exercise ids unique. */
  lemma RemoveMissedKeepsUnique(missed: seq<MissedQuestion>, exerciseId: int)
    requires UniqueExercises(missed)
    ensures UniqueExercises(RemoveMissed(missed, exerciseId))
  {
    UniqueFilter(missed, OtherExercise(exerciseId));
  }

  lemma {:induction false} UniqueFilter(missed: seq<MissedQuestion>, p: MissedQuestion -> bool)
    requires UniqueExercises(missed)
    ensures UniqueExercises(Filter(missed, p))
    decreases |missed|
  {
    if missed != [] {
      UniqueFilter(missed[1..], p);
      var rest := Filter(missed[1..], p);
      forall k | 0 <= k < |rest|
        ensures rest[k].exerciseId != missed[0].exerciseId
      {
        assert rest[k] in missed[1..];
        var j :| 0 <= j < |missed[1..]| && missed[1..][j] == rest[k];
        assert missed[j + 1] == rest[k];
      }
    }
  }

  /** `chapter_` followed by the chapter id, or by `unknown` when there is none. */
  function GroupKey(mq: MissedQuestion): (key: string)
    ensures StartsWith(key, "chapter_")
  {
    var suffix := match mq.chapterId
      case Some(id) => IntToString(id)
      case None => "unknown";
    assert ("chapter_" + suffix)[..|"chapter_"|] == "chapter_";
    "chapter_" + suffix
  }

  /** Questions with different chapter ids land in different groups. */
  lemma GroupKeySeparatesChapters(a: MissedQuestion, b: MissedQuestion)
    requires GroupKey(a) == GroupKey(b)
    ensures a.chapterId == b.chapterId
  {
    var p := "chapter_";
    var ka, kb := GroupKey(a), GroupKey(b);
    assert ka[|p|..] == (if a.chapterId.Some? then IntToString(a.chapterId.value) else "unknown");
    assert kb[|p|..] == (if b.chapterId.Some? then IntToString(b.chapterId.value) else "unknown");
    if a.chapterId.Some? && b.chapterId.Some? {
      IntToStringInjective(a.chapterId.value, b.chapterId.value);
    } else if a.chapterId.Some? {
      UnknownIsNotANumber(a.chapterId.value);
    } else if b.chapterId.Some? {
      UnknownIsNotANumber(b.chapterId.value);
    }
  }

  lemma UnknownIsNotANumber(n: int)
    ensures IntToString(n) != "unknown"
  {
    assert !IsDigit("unknown"[1]);
  }

  function InGroup(key: string): MissedQuestion -> bool {
    (mq: MissedQuestion) => GroupKey(mq) == key
  }

  /** The groups `getMissedQuestionsByAssignment` builds from the first `|missed|` questions. */
  function Grouped(missed: seq<MissedQuestion>): map<string, seq<MissedQuestion>>
    decreases |missed|
  {
    if missed == [] then map[]
    else
      var g := Grouped(missed[..|missed| - 1]);
      var mq := missed[|missed| - 1];
      var key := GroupKey(mq);
      g[key := GroupOf(g, key) + [mq]]
  }

  /** One more question in the prefix files it at the end of its own group. */
  lemma GroupedPrefix(missed: seq<MissedQuestion>, i: nat)
    requires i < |missed|
    ensures var g, key := Grouped(missed[..i]), GroupKey(missed[i]);
      Grouped(missed[..i + 1]) == g[key := GroupOf(g, key) + [missed[i]]]
  {
    assert missed[..i + 1][..i] == missed[..i];
  }

  /** The group under `key`, empty when there is none. */
  function GroupOf(g: map<string, seq<MissedQuestion>>, key: string): seq<MissedQuestion> {
    if key in g then g[key] else []
  }

  /** Each group holds exactly the questions with its key, in list order; no group is empty. */
  lemma {:induction false} GroupedIsPartition(missed: seq<MissedQuestion>, key: string)
    ensures GroupOf(Grouped(missed), key) == Filter(missed, InGroup(key))
    ensures key in Grouped(missed) ==> Grouped(missed)[key] != []
    decreases |missed|
  {
    if missed != [] {
      var init := missed[..|missed| - 1];
      var mq := missed[|missed| - 1];
      var g, k := Grouped(init), GroupKey(mq);
      assert Grouped(missed) == g[k := GroupOf(g, k) + [mq]];
      GroupedIsPartition(init, key);
      InitLast(missed);
      FilterSnoc(init, mq, InGroup(key));
    }
  }

  /** The whole state the context holds. */
  class UserStore {
    var userData: UserProgress
    var adminMode: bool

    /** The initial progress record and admin mode off. */
    constructor ()
      ensures userData == UserProgress(1, 1, 1, 0, [], [], false, [], None) && !adminMode
    {
      userData := UserProgress(1, 1, 1, 0, [], [], false, [], None);
      adminMode := false;
    }

    method UpdateCurrentModule(moduleId: int)
      modifies this
      ensures userData == old(userData).(currentModule := moduleId) && adminMode == old(adminMode)
    {
      userData := userData.(currentModule := moduleId);
    }

    method UpdateCurrentChapter(chapterId: int)
      modifies this
      ensures userData == old(userData).(currentChapter := chapterId) && adminMode == old(adminMode)
    {
      userData := userData.(currentChapter := chapterId);
    }

    method AddMissedQuestion(mq: MissedQuestion)
      modifies this
      ensures userData == old(userData).(missedQuestions := AddMissed(old(userData).missedQuestions, mq))
      ensures adminMode == old(adminMode)
    {
      userData := userData.(missedQuestions := AddMissed(userData.missedQuestions, mq));
    }

    method RemoveMissedQuestion(exerciseId: int)
      modifies this
      ensures userData == old(userData).(missedQuestions := RemoveMissed(old(userData).missedQuestions, exerciseId))
      ensures adminMode == old(adminMode)
    {
      userData := userData.(missedQuestions := RemoveMissed(userData.missedQuestions, exerciseId));
    }

    /** `getMissedQuestionsByAssignment()`: fills the groups question by question. */
    method MissedQuestionsByAssignment() returns (grouped: map<string, seq<MissedQuestion>>)
      ensures grouped == Grouped(userData.missedQuestions)
    {
      var missed := userData.missedQuestions;
      grouped := map[];
      for i := 0 to |missed|
        invariant grouped == Grouped(missed[..i])
      {
        var mq := missed[i];
        var key := GroupKey(mq);
        GroupedPrefix(missed, i);
        if key !in grouped {
          grouped := grouped[key := []];
        }
        grouped := grouped[key := grouped[key] + [mq]];
      }
      assert missed[..|missed|] == missed;
    }

    method ToggleVocabPackMethod(packId: int)
      modifies this
      ensures userData == old(userData).(activeVocabPacks := ToggleVocabPack(old(userData).activeVocabPacks, packId))
      ensures adminMode == old(adminMode)
    {
      userData := userData.(activeVocabPacks := ToggleVocabPack(userData.activeVocabPacks, packId));
    }

    method IncrementStreak()
      modifies this
      ensures userData == old(userData).(streakCount := old(userData).streakCount + 1) && adminMode == old(adminMode)
    {
      userData := userData.(streakCount := userData.streakCount + 1);
    }

    method CompleteModule0()
      modifies this
      ensures userData == old(userData).(module0Complete := true) && adminMode == old(adminMode)
    {
      userData := userData.(module0Complete := true);
    }

    method ToggleAdminMode()
      modifies this
      ensures adminMode == !old(adminMode) && userData == old(userData)
    {
      adminMode := !adminMode;
    }
  }

  /** `toggleVocabPack(packId)` on the active pack list: every copy removed if present, else appended. */
  function ToggleVocabPack(packs: seq<int>, packId: int): (r: seq<int>)
    ensures packId in r <==> packId !in packs
    ensures forall id :: id != packId ==> (id in r <==> id in packs)
    ensures packId !in packs ==> r == packs + [packId]
  {
    if packId in packs then Filter(packs, NotEqual(packId)) else packs + [packId]
  }

  /** Toggling off a pack listed once removes just that entry; the others keep their order. */
  lemma ToggleOffRemovesOne(before: seq<int>, packId: int, after: seq<int>)
    requires packId !in before && packId !in after
    ensures ToggleVocabPack(before + [packId] + after, packId) == before + after
  {
    var listed := before + [packId] + after;
    assert listed[|before|] == packId;
    FilterOutSingle(before, packId, after);
  }

  /**
   * Toggling off an active pack drops its every copy and keeps the other ids in order:
   * the removal distributes over concatenation, one entry at a time.
   */
  lemma ToggleOffAppend(a: seq<int>, b: seq<int>, x: int, packId: int)
    requires packId in a + b
    ensures ToggleVocabPack(a + b, packId) == Filter(a, NotEqual(packId)) + Filter(b, NotEqual(packId))
    ensures Filter([x], NotEqual(packId)) == if x == packId then [] else [x]
  {
    FilterAppend(a, b, NotEqual(packId));
    assert [x][1..] == [];
  }

  /** Toggling an inactive pack twice restores the list. */
  lemma ToggleTwiceRestores(packs: seq<int>, packId: int)
    requires packId !in packs
    ensures ToggleVocabPack(ToggleVocabPack(packs, packId), packId) == packs
  {
    FilterSnoc(packs, packId, NotEqual(packId));
    FilterKeepsAll(packs, NotEqual(packId));
  }
}
