/**
 * Persistent verb–noun compatibility patterns. The device's key–value store holds,
 * under the single key `StorageKey`, a JSON object from "verbId:nounId" to a boolean.
 * Reads that find nothing or cannot parse what they find behave as an empty object.
 */
module CompatibilityStorage {
  import opened Text
  import opened Models

  const StorageKey: string := "sentence_compatibility_patterns"

  /** What the store holds under `StorageKey`. */
  datatype Slot = Missing | Unreadable | Saved(patterns: map<string, bool>)

  /** One entry of a batch save. */
  datatype PatternEntry = PatternEntry(verbId: int, nounId: int, compatible: bool)

  /** `getCompatibilityKey(verbId, nounId)`: the two ids in decimal, joined by a colon. */
  function Key(verbId: int, nounId: int): (k: string)
    ensures StartsWith(k, IntToString(verbId)) && EndsWith(k, IntToString(nounId))
    ensures |k| == |IntToString(verbId)| + 1 + |IntToString(nounId)| && k[|IntToString(verbId)|] == ':'
  {
    IntToString(verbId) + ":" + IntToString(nounId)
  }

  /** Distinct pairs get distinct keys, because a decimal integer holds no colon. */
  lemma KeyInjective(v1: int, n1: int, v2: int, n2: int)
    requires Key(v1, n1) == Key(v2, n2)
    ensures v1 == v2 && n1 == n2
  {
    var a, b := IntToString(v1), IntToString(v2);
    var k := Key(v1, n1);
    if |a| < |b| {
      assert false;
    } else if |b| < |a| {
      assert false;
    }
    assert a == k[..|a|] == b;
    IntToStringInjective(v1, v2);
    assert IntToString(n1) == k[|a| + 1..] == IntToString(n2);
    IntToStringInjective(n1, n2);
  }

  /**
   * `patterns.has(key) ? patterns.get(key) || null : null`: a stored `true` reads as
   * `true`, while a stored `false` reads as `null`, the same as an absent pair.
   */
  function Lookup(patterns: map<string, bool>, key: string): (r: Option<bool>)
    ensures r.Some? <==> key in patterns && patterns[key]
    ensures r != Some(false)
  {
    if key in patterns && patterns[key] then Some(true) else None
  }

  /** `patterns.set(key, compatible)` for one batch entry. */
  function Apply(patterns: map<string, bool>, e: PatternEntry): (r: map<string, bool>)
    ensures Key(e.verbId, e.nounId) in r && r[Key(e.verbId, e.nounId)] == e.compatible
    ensures r.Keys == patterns.Keys + {Key(e.verbId, e.nounId)}
    ensures forall k :: k in patterns && k != Key(e.verbId, e.nounId) ==> r[k] == patterns[k]
  {
    patterns[Key(e.verbId, e.nounId) := e.compatible]
  }

  /** The batch entries applied in order. */
  function ApplyAll(patterns: map<string, bool>, entries: seq<PatternEntry>): (r: map<string, bool>)
    ensures patterns.Keys <= r.Keys
    decreases |entries|
  {
    if entries == [] then patterns
    else ApplyAll(Apply(patterns, entries[0]), entries[1..])
  }

  /** Applying two batches in turn is applying their concatenation. */
  lemma {:induction false} ApplyAllAppend(patterns: map<string, bool>, a: seq<PatternEntry>, b: seq<PatternEntry>)
    ensures ApplyAll(ApplyAll(patterns, a), b) == ApplyAll(patterns, a + b)
    decreases |a|
  {
    if a == [] {
      assert a + b == b;
    } else {
      assert (a + b)[1..] == a[1..] + b;
      ApplyAllAppend(Apply(patterns, a[0]), a[1..], b);
    }
  }

  /** A pair the batch does not mention keeps its old value, or stays absent. */
  lemma {:induction false} ApplyAllUntouched(patterns: map<string, bool>, entries: seq<PatternEntry>, v: int, n: int)
    requires forall i :: 0 <= i < |entries| ==> entries[i].verbId != v || entries[i].nounId != n
    ensures Key(v, n) in ApplyAll(patterns, entries) <==> Key(v, n) in patterns
    ensures Key(v, n) in patterns ==> ApplyAll(patterns, entries)[Key(v, n)] == patterns[Key(v, n)]
    decreases |entries|
  {
    if entries != [] {
      var e := entries[0];
      if Key(e.verbId, e.nounId) == Key(v, n) {
        KeyInjective(e.verbId, e.nounId, v, n);
      }
      ApplyAllUntouched(Apply(patterns, e), entries[1..], v, n);
    }
  }

  /** After a batch, a pair's value is the one its last entry in the batch gives it. */
  lemma {:induction false} ApplyAllLastWins(patterns: map<string, bool>, entries: seq<PatternEntry>, i: nat)
    requires i < |entries|
    requires forall j :: i < j < |entries| ==> entries[j].verbId != entries[i].verbId || entries[j].nounId != entries[i].nounId
    ensures Key(entries[i].verbId, entries[i].nounId) in ApplyAll(patterns, entries)
    ensures ApplyAll(patterns, entries)[Key(entries[i].verbId, entries[i].nounId)] == entries[i].compatible
    decreases |entries|
  {
    var e := entries[i];
    if i == 0 {
      assert forall j :: 0 <= j < |entries[1..]| ==> entries[1..][j] == entries[j + 1];
      ApplyAllUntouched(Apply(patterns, e), entries[1..], e.verbId, e.nounId);
    } else {
      assert entries[1..][i - 1] == e;
      assert forall j :: i - 1 < j < |entries[1..]| ==> entries[1..][j] == entries[j + 1];
      ApplyAllLastWins(Apply(patterns, entries[0]), entries[1..], i - 1);
    }
  }

  /** Saving one pair leaves every other pair's reading as it was. */
  lemma OtherPairsUnchanged(patterns: map<string, bool>, v: int, n: int, c: bool, v2: int, n2: int)
    requires v != v2 || n != n2
    ensures Lookup(patterns[Key(v, n) := c], Key(v2, n2)) == Lookup(patterns, Key(v2, n2))
  {
    if Key(v, n) == Key(v2, n2) {
      KeyInjective(v, n, v2, n2);
    }
  }

  /** The device store, reduced to the one key this module uses. */
  class CompatibilityStore {
    var slot: Slot

    constructor ()
      ensures slot == Missing
    {
      slot := Missing;
    }

    /** `loadCompatibilityPatterns()`: the stored object, or an empty map when there is none or it does not parse. */
    function Load(): (patterns: map<string, bool>)
      reads this
      ensures slot.Saved? ==> patterns == slot.patterns
      ensures !slot.Saved? ==> patterns == map[]
    {
      if slot.Saved? then slot.patterns else map[]
    }

    /** `saveCompatibilityPattern(verbId, nounId, compatible)`: load, set the pair, store everything back. */
    method Save(verbId: int, nounId: int, compatible: bool)
      modifies this
      ensures slot == Saved(Apply(old(Load()), PatternEntry(verbId, nounId, compatible)))
    {
      var key := Key(verbId, nounId);
      var patterns := Load();
      patterns := patterns[key := compatible];
      slot := Saved(patterns);
    }

    /** `getCompatibilityPattern(verbId, nounId)` */
    method Get(verbId: int, nounId: int) returns (r: Option<bool>)
      ensures r == Some(true) <==> Key(verbId, nounId) in Load() && Load()[Key(verbId, nounId)]
      ensures r.None? <==> Key(verbId, nounId) !in Load() || !Load()[Key(verbId, nounId)]
    {
      var patterns := Load();
      r := Lookup(patterns, Key(verbId, nounId));
    }

    /** `clearCompatibilityPatterns()`: removes the stored object. */
    method Clear()
      modifies this
      ensures slot == Missing && Load() == map[]
    {
      slot := Missing;
    }

    /** `saveCompatibilityPatternsBatch(patterns)`: one load, every entry set in order, one store. */
    method SaveBatch(entries: seq<PatternEntry>)
      modifies this
      ensures slot == Saved(ApplyAll(old(Load()), entries))
    {
      var patterns := Load();
      for i := 0 to |entries|
        invariant ApplyAll(patterns, entries[i..]) == ApplyAll(old(Load()), entries)
      {
        assert entries[i..][1..] == entries[i + 1..];
        patterns := patterns[Key(entries[i].verbId, entries[i].nounId) := entries[i].compatible];
      }
      assert entries[|entries|..] == [];
      slot := Saved(patterns);
    }
  }

  /** Saving a pair and reading it back gives `true` for `true` and nothing for `false`. */
  lemma SaveThenLookup(patterns: map<string, bool>, v: int, n: int, c: bool)
    ensures Lookup(Apply(patterns, PatternEntry(v, n, c)), Key(v, n)) == (if c then Some(true) else None)
  {
  }
}
