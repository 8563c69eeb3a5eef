/** Generic sequence helpers: `filter`, duplicate-freedom, `[...new Set(xs)]`. */
module Seqs {

  /** `s.filter(p)` */
  function Filter<T(!new)>(s: seq<T>, p: T -> bool): (r: seq<T>)
    ensures |r| <= |s|
    ensures forall x :: x in r <==> x in s && p(x)
    decreases |s|
  {
    if s == [] then [] else (if p(s[0]) then [s[0]] else []) + Filter(s[1..], p)
  }

  /** `s.findIndex(p)`, with `|s|` standing for "not found". */
  function FirstIndex<T>(s: seq<T>, p: T -> bool): (i: nat)
    ensures i <= |s|
    ensures i < |s| ==> p(s[i])
    ensures forall j :: 0 <= j < i ==> !p(s[j])
    decreases |s|
  {
    if s == [] then 0 else if p(s[0]) then 0 else 1 + FirstIndex(s[1..], p)
  }

  lemma {:induction false} FilterAppend<T(!new)>(a: seq<T>, b: seq<T>, p: T -> bool)
    ensures Filter(a + b, p) == Filter(a, p) + Filter(b, p)
    decreases |a|
  {
    if a == [] {
      assert a + b == b;
    } else {
      assert (a + b)[1..] == a[1..] + b;
      FilterAppend(a[1..], b, p);
    }
  }

  /** A non-empty sequence is its prefix followed by its last element. */
  lemma InitLast<T>(s: seq<T>)
    requires s != []
    ensures s == s[..|s| - 1] + [s[|s| - 1]]
  {
  }

  /** A concatenation splits back into its two parts. */
  lemma AppendHalves<T>(a: seq<T>, b: seq<T>)
    ensures (a + b)[..|a|] == a && (a + b)[|a|..] == b
  {
  }

  lemma AppendAssoc<T>(a: seq<T>, b: seq<T>, c: seq<T>)
    ensures (a + b) + c == a + (b + c)
  {
  }

  /** Filtering a sequence grown by one element. */
  lemma FilterSnoc<T(!new)>(s: seq<T>, x: T, p: T -> bool)
    ensures Filter(s + [x], p) == Filter(s, p) + (if p(x) then [x] else [])
  {
    FilterAppend(s, [x], p);
    assert Filter([x], p) == (if p(x) then [x] else []) + Filter([], p);
  }

  /** One more element of `s` taken into the prefix filtered so far. */
  lemma FilterPrefixStep<T(!new)>(s: seq<T>, i: nat, p: T -> bool)
    requires i < |s|
    ensures Filter(s[..i + 1], p) == Filter(s[..i], p) + (if p(s[i]) then [s[i]] else [])
  {
    assert s[..i + 1] == s[..i] + [s[i]];
    FilterSnoc(s[..i], s[i], p);
  }

  /** Two tests that agree on every element filter alike. */
  lemma {:induction false} FilterAgrees<T(!new)>(s: seq<T>, p: T -> bool, q: T -> bool)
    requires forall x :: x in s ==> p(x) == q(x)
    ensures Filter(s, p) == Filter(s, q)
    decreases |s|
  {
    if s != [] {
      assert forall x :: x in s[1..] ==> x in s;
      FilterAgrees(s[1..], p, q);
    }
  }

  /** A test every element passes filters nothing out. */
  lemma {:induction false} FilterKeepsAll<T(!new)>(s: seq<T>, p: T -> bool)
    requires forall x :: x in s ==> p(x)
    ensures Filter(s, p) == s
    decreases |s|
  {
    if s != [] {
      assert forall x :: x in s[1..] ==> x in s;
      FilterKeepsAll(s[1..], p);
      assert s == [s[0]] + s[1..];
    }
  }

  /** `y => y !== x` */
  function NotEqual<T(==)>(x: T): T -> bool {
    y => y != x
  }

  /** Filtering out a value that occurs once shortens the sequence by one. */
  lemma {:induction false} FilterOutOne<T(!new)>(s: seq<T>, x: T)
    requires NoDup(s) && x in s
    ensures |Filter(s, NotEqual(x))| == |s| - 1
    decreases |s|
  {
    if s[0] == x {
      assert x !in s[1..];
      FilterKeepsAll(s[1..], NotEqual(x));
    } else {
      assert x in s[1..] by {
        var j :| 0 <= j < |s| && s[j] == x;
        assert s[1..][j - 1] == x;
      }
      FilterOutOne(s[1..], x);
    }
  }

  /** Filtering out a value that occurs once removes just that entry. */
  lemma FilterOutSingle<T(!new)>(before: seq<T>, x: T, after: seq<T>)
    requires x !in before && x !in after
    ensures Filter(before + [x] + after, NotEqual(x)) == before + after
  {
    var p := NotEqual(x);
    assert Filter(before, p) == before by {
      FilterKeepsAll(before, p);
    }
    assert Filter(after, p) == after by {
      FilterKeepsAll(after, p);
    }
    assert Filter(before + [x], p) == before by {
      FilterAppend(before, [x], p);
      assert [x][1..] == [];
      assert Filter([x], p) == [];
    }
    FilterAppend(before + [x], after, p);
  }

  /** Filtering keeps the elements that pass, as a multiset. */
  lemma {:induction false} FilterMultiset<T(!new)>(s: seq<T>, p: T -> bool)
    ensures multiset(Filter(s, p)) <= multiset(s)
    decreases |s|
  {
    if s != [] {
      FilterMultiset(s[1..], p);
      assert s == [s[0]] + s[1..];
    }
  }

  predicate NoDup<T(==)>(s: seq<T>) {
    forall i, j :: 0 <= i < j < |s| ==> s[i] != s[j]
  }

  lemma {:induction false} FilterNoDup<T(!new)>(s: seq<T>, p: T -> bool)
    requires NoDup(s)
    ensures NoDup(Filter(s, p))
    decreases |s|
  {
    if s != [] {
      FilterNoDup(s[1..], p);
    }
  }

  /** In a duplicate-free sequence every element occurs once. */
  lemma {:induction false} NoDupCount<T>(s: seq<T>, x: T)
    requires NoDup(s)
    ensures multiset(s)[x] <= 1
    decreases |s|
  {
    if s != [] {
      NoDupCount(s[1..], x);
      assert s == [s[0]] + s[1..];
    }
  }

  /** An element at two positions occurs at least twice. */
  lemma RepeatCount<T>(s: seq<T>, i: nat, j: nat)
    requires i < j < |s| && s[i] == s[j]
    ensures multiset(s)[s[i]] >= 2
  {
    assert s == s[..j] + [s[j]] + s[j + 1..];
    assert s[..j][i] == s[i];
    assert s[i] in multiset(s[..j]);
  }

  /** A permutation has the same elements. */
  lemma PermutationMembership<T>(a: seq<T>, b: seq<T>)
    requires multiset(a) == multiset(b)
    ensures forall x :: x in a <==> x in b
  {
    forall x ensures x in a <==> x in b {
      assert x in a <==> x in multiset(a);
      assert x in b <==> x in multiset(b);
    }
  }

  /** Splitting a sequence by a test and by its negation keeps every element exactly once. */
  lemma {:induction false} FilterPartitionLength<T(!new)>(s: seq<T>, p: T -> bool, q: T -> bool)
    requires forall x :: q(x) == !p(x)
    ensures |Filter(s, p)| + |Filter(s, q)| == |s|
    decreases |s|
  {
    if s != [] {
      FilterPartitionLength(s[1..], p, q);
    }
  }

  /** What is drawn from a sequence without repetition is an element of it. */
  lemma SubMultisetMembership<T>(a: seq<T>, b: seq<T>)
    requires multiset(a) <= multiset(b)
    ensures forall x :: x in a ==> x in b
  {
    forall x | x in a ensures x in b {
      assert x in multiset(a);
    }
  }

  /** A permutation of a duplicate-free sequence is duplicate-free. */
  lemma PermutationNoDup<T>(a: seq<T>, b: seq<T>)
    requires multiset(a) == multiset(b) && NoDup(a)
    ensures NoDup(b)
  {
    forall i, j | 0 <= i < j < |b|
      ensures b[i] != b[j]
    {
      if b[i] == b[j] {
        RepeatCount(b, i, j);
        NoDupCount(a, b[i]);
      }
    }
  }

  /** Keys distinct in a sequence stay distinct in any permutation of it. */
  lemma PermutationKeepsKeysDistinct<T>(a: seq<T>, b: seq<T>, key: T -> int)
    requires multiset(a) == multiset(b)
    requires forall i, j :: 0 <= i < j < |a| ==> key(a[i]) != key(a[j])
    ensures forall i, j :: 0 <= i < j < |b| ==> key(b[i]) != key(b[j])
  {
    assert NoDup(a) by {
      forall i, j | 0 <= i < j < |a| ensures a[i] != a[j] {
        assert key(a[i]) != key(a[j]);
      }
    }
    PermutationNoDup(a, b);
    PermutationMembership(a, b);
    forall i, j | 0 <= i < j < |b|
      ensures key(b[i]) != key(b[j])
    {
      assert b[i] in a && b[j] in a;
      var p :| 0 <= p < |a| && a[p] == b[i];
      var q :| 0 <= q < |a| && a[q] == b[j];
      assert p != q;
      if p < q {
        assert key(a[p]) != key(a[q]);
      } else {
        assert key(a[q]) != key(a[p]);
      }
    }
  }

  /** `[...new Set(s)]`: first occurrences, in order. */
  function Dedup<T(==,!new)>(s: seq<T>): (r: seq<T>)
    ensures NoDup(r)
    ensures forall x :: x in r <==> x in s
    decreases |s|
  {
    if s == [] then []
    else
      var d := Dedup(s[..|s| - 1]);
      var x := s[|s| - 1];
      if x in d then d else d + [x]
  }

  /** A duplicate-free sequence is its own set-dedup. */
  lemma {:induction false} DedupOfNoDup<T(!new)>(s: seq<T>)
    requires NoDup(s)
    ensures Dedup(s) == s
    decreases |s|
  {
    if s != [] {
      DedupOfNoDup(s[..|s| - 1]);
      assert s == s[..|s| - 1] + [s[|s| - 1]];
    }
  }
}
