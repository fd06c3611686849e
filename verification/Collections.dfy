/** Facts about finite sets and sequences used by several components. */
module Collections {

  datatype Option<+T> = None | Some(value: T)

  function Min(a: real, b: real): real { if a <= b then a else b }

  function Last<T>(s: seq<T>): T
    requires s != []
  {
    s[|s| - 1]
  }

  function Front<T>(s: seq<T>): seq<T>
    requires s != []
  {
    s[..|s| - 1]
  }

  /** Two sets that differ at most in `x` differ in size by what happens to `x`. */
  lemma CardFlip<A>(s: set<A>, t: set<A>, x: A)
    requires s - {x} == t - {x}
    ensures |t| == |s| - (if x in s then 1 else 0) + (if x in t then 1 else 0)
  {
    assert |s| == |s - {x}| + (if x in s then 1 else 0) by {
      if x in s { assert s == (s - {x}) + {x}; } else { assert s == s - {x}; }
    }
    assert |t| == |t - {x}| + (if x in t then 1 else 0) by {
      if x in t { assert t == (t - {x}) + {x}; } else { assert t == t - {x}; }
    }
  }

  /** A subset is no larger. */
  lemma CardSubset<A>(s: set<A>, t: set<A>)
    requires s <= t
    ensures |s| <= |t|
    ensures |t - s| == |t| - |s|
  {
    assert t == s + (t - s);
  }

  /** The multiset of a concatenation is the sum of the multisets. */
  lemma CountAppend<T>(s: seq<T>, x: T)
    ensures multiset(s + [x]) == multiset(s) + multiset{x}
  {
  }

  /** Splitting the first element off a sequence splits its multiset. */
  lemma CountHead<T>(s: seq<T>)
    requires s != []
    ensures multiset(s) == multiset{s[0]} + multiset(s[1..])
  {
    assert s == [s[0]] + s[1..];
  }

  /** `a` can be obtained from `b` by deleting elements. */
  ghost predicate Subsequence<T(!new)>(a: seq<T>, b: seq<T>)
    decreases |b|
  {
    if a == [] then true
    else if b == [] then false
    else (Last(a) == Last(b) && Subsequence(Front(a), Front(b))) || Subsequence(a, Front(b))
  }

  /** A subsequence is found in the other at increasing places. */
  lemma {:induction false} SubsequenceMeaning<T(!new)>(a: seq<T>, b: seq<T>) returns (at: seq<nat>)
    requires Subsequence(a, b)
    ensures |at| == |a| && (forall i | 0 <= i < |a| :: at[i] < |b| && a[i] == b[at[i]])
    ensures forall i, j | 0 <= i < j < |at| :: at[i] < at[j]
    decreases |b|
  {
    if a == [] {
      at := [];
    } else if Last(a) == Last(b) && Subsequence(Front(a), Front(b)) {
      at := SubsequenceMeaning(Front(a), Front(b));
      at := at + [|b| - 1];
    } else {
      at := SubsequenceMeaning(a, Front(b));
    }
  }

  /** The same element appended to both sides keeps a subsequence. */
  lemma SubsequenceAppend<T(!new)>(a: seq<T>, b: seq<T>, x: T)
    requires Subsequence(a, b)
    ensures Subsequence(a + [x], b + [x])
  {
    assert Front(a + [x]) == a && Front(b + [x]) == b;
  }

  /** Appending to the longer side keeps a subsequence. */
  lemma SubsequenceWiden<T(!new)>(a: seq<T>, b: seq<T>, x: T)
    requires Subsequence(a, b)
    ensures Subsequence(a, b + [x])
  {
    assert Front(b + [x]) == b;
  }

  /** Deleting an element other than the last one is deleting it from the front part. */
  lemma DeleteInFront<T(!new)>(a: seq<T>, i: nat)
    requires i < |a| - 1
    ensures a[..i] + a[i + 1..] == Front(a)[..i] + Front(a)[i + 1..] + [Last(a)]
  {
    var h := Front(a);
    assert a[..i] == h[..i];
    assert a[i + 1..] == h[i + 1..] + [Last(a)];
  }

  /** Deleting one element of the shorter side keeps a subsequence. */
  lemma {:induction false} SubsequenceDelete<T(!new)>(a: seq<T>, b: seq<T>, i: nat)
    requires Subsequence(a, b) && i < |a|
    ensures Subsequence(a[..i] + a[i + 1..], b)
    decreases |b|
  {
    var f, x := Front(b), Last(b);
    assert b == f + [x];
    if Subsequence(a, f) {
      SubsequenceDelete(a, f, i);
      SubsequenceWiden(a[..i] + a[i + 1..], f, x);
    } else if i == |a| - 1 {
      assert a[..i] + a[i + 1..] == Front(a);
      SubsequenceWiden(Front(a), f, x);
    } else {
      SubsequenceDelete(Front(a), f, i);
      SubsequenceAppend(Front(a)[..i] + Front(a)[i + 1..], f, x);
      DeleteInFront(a, i);
    }
  }

  ghost predicate Suffix<T(!new)>(a: seq<T>, b: seq<T>) {
    |a| <= |b| && a == b[|b| - |a|..]
  }

  ghost predicate Distinct<T(!new)>(s: seq<T>) {
    forall i, j | 0 <= i < j < |s| :: s[i] != s[j]
  }

  /** In a sequence without repetition every element occurs exactly once. */
  lemma {:induction false} DistinctCount<T(!new)>(s: seq<T>, x: T)
    requires Distinct(s)
    ensures multiset(s)[x] == if x in s then 1 else 0
  {
    if s != [] {
      DistinctCount(Front(s), x);
      assert s == Front(s) + [Last(s)];
      assert forall i, j | 0 <= i < j < |s| :: s[i] != s[j];
      if x == Last(s) { assert x !in Front(s); }
    }
  }

  /** A sequence without repetition is as long as the set of its elements is large. */
  lemma {:induction false} DistinctSize<T(!new)>(s: seq<T>, elems: set<T>)
    requires Distinct(s) && forall x :: x in s <==> x in elems
    ensures |s| == |elems|
  {
    if s == [] {
      assert elems == {};
    } else {
      var f, x := Front(s), Last(s);
      assert s == f + [x];
      assert x !in f by { assert forall i | 0 <= i < |f| :: s[i] != s[|s| - 1]; }
      DistinctSize(f, elems - {x});
      assert elems == (elems - {x}) + {x};
    }
  }
}
