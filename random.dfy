/**
 * `Math.random()` and the two helpers built on it that both exercise generators
 * share: a Fisher–Yates shuffle of a copy and "take `count` random items".
 */
module Random {

  /**
   * A source of random draws. `draws` fixes the sequence of raw draws, so every
   * property proved about a method that uses it holds for every possible sequence.
   * `Below(n)` stands for `Math.floor(Math.random() * n)`; callers rely only on its
   * bound, so every property proved holds whichever index is drawn.
   */
  class RandomSource {
    const draws: nat -> nat
    var drawn: nat

    constructor (draws: nat -> nat)
      ensures this.draws == draws && drawn == 0
    {
      this.draws := draws;
      drawn := 0;
    }

    method Below(n: nat) returns (r: nat)
      requires n > 0
      modifies this
      ensures r < n && drawn == old(drawn) + 1
    {
      r := draws(drawn) % n;
      drawn := drawn + 1;
    }

    /** A raw draw, for code that takes its index modulo a length it computes later. */
    method Next() returns (r: nat)
      modifies this
      ensures r == draws(old(drawn)) && drawn == old(drawn) + 1
    {
      r := draws(drawn);
      drawn := drawn + 1;
    }

    /** `Math.random() < p` (or `> p`) for some fixed threshold `p`. */
    method Chance() returns (b: bool)
      modifies this
      ensures b == (draws(old(drawn)) % 2 == 0) && drawn == old(drawn) + 1
    {
      b := draws(drawn) % 2 == 0;
      drawn := drawn + 1;
    }
  }

  function Min(a: int, b: int): int {
    if a <= b then a else b
  }

  /**
   * Swaps `a[i]` and `a[j]` for `i` from the last index down to 1, with `j` drawn
   * from `0..i`; the array ends up a permutation of its old contents.
   */
  method ShuffleInPlace<T>(a: array<T>, rng: RandomSource)
    modifies a, rng
    ensures multiset(a[..]) == multiset(old(a[..]))
  {
    var i := a.Length - 1;
    while i > 0
      invariant -1 <= i < a.Length
      invariant multiset(a[..]) == multiset(old(a[..]))
    {
      var j := rng.Below(i + 1);
      a[i], a[j] := a[j], a[i];
      i := i - 1;
    }
  }

  /** `shuffleArray(array)`: a shuffled copy; the argument is left alone. */
  method Shuffle<T>(s: seq<T>, rng: RandomSource) returns (r: seq<T>)
    modifies rng
    ensures |r| == |s| && multiset(r) == multiset(s)
  {
    var a := new T[|s|](i requires 0 <= i < |s| => s[i]);
    assert a[..] == s;
    ShuffleInPlace(a, rng);
    r := a[..];
    assert |r| == |multiset(r)| == |multiset(s)| == |s|;
  }

  lemma PrefixMultiset<T>(s: seq<T>, k: nat)
    requires k <= |s|
    ensures multiset(s[..k]) <= multiset(s)
  {
    assert s == s[..k] + s[k..];
  }

  /** `getRandomItems(array, count)`: `min(count, |array|)` distinct positions of the array. */
  method RandomItems<T>(s: seq<T>, count: nat, rng: RandomSource) returns (r: seq<T>)
    modifies rng
    ensures |r| == Min(count, |s|)
    ensures multiset(r) <= multiset(s)
  {
    var shuffled := Shuffle(s, rng);
    r := shuffled[..Min(count, |s|)];
    PrefixMultiset(shuffled, Min(count, |s|));
  }
}
