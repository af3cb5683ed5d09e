/** Sequence helpers shared by every lead-processing module: a stable filter
    (the model of JavaScript's `Array.prototype.filter`), the order-preserving
    subsequence relation, counting, and a bound on per-key counts. */
module Seqs {

  /** Stable filter: keeps the elements satisfying `p`, in their input order. */
  function Filter<T(==,!new)>(s: seq<T>, p: T -> bool): (r: seq<T>)
    ensures |r| <= |s|
    ensures forall x :: x in r <==> x in s && p(x)
    ensures forall i :: 0 <= i < |r| ==> p(r[i])
  {
    if s == [] then []
    else if p(s[0]) then [s[0]] + Filter(s[1..], p)
    else Filter(s[1..], p)
  }

  /** `a` can be obtained from `b` by deleting elements, without reordering. */
  predicate IsSubsequence<T(==)>(a: seq<T>, b: seq<T>)
    decreases |b|
  {
    if a == [] then true
    else if b == [] then false
    else (a[0] == b[0] && IsSubsequence(a[1..], b[1..])) || IsSubsequence(a, b[1..])
  }

  lemma {:induction false} IsSubsequenceRefl<T>(s: seq<T>)
    ensures IsSubsequence(s, s)
  {
    if s != [] {
      IsSubsequenceRefl(s[1..]);
    }
  }

  /** Appending the same element to both sides keeps a subsequence, and so
      does appending it to the longer side alone. */
  lemma {:induction false} IsSubsequenceSnoc<T>(a: seq<T>, b: seq<T>, x: T)
    requires IsSubsequence(a, b)
    ensures IsSubsequence(a, b + [x]) && IsSubsequence(a + [x], b + [x])
    decreases |b|
  {
    if b == [] {
      assert a == [];
      assert (a + [x])[1..] == [];
    } else {
      assert (b + [x])[1..] == b[1..] + [x];
      if a == [] {
        IsSubsequenceSnoc(a, b[1..], x);
      } else {
        assert (a + [x])[1..] == a[1..] + [x];
        if a[0] == b[0] && IsSubsequence(a[1..], b[1..]) {
          IsSubsequenceSnoc(a[1..], b[1..], x);
        } else {
          IsSubsequenceSnoc(a, b[1..], x);
        }
      }
    }
  }

  lemma {:induction false} FilterIsSubsequence<T(!new)>(s: seq<T>, p: T -> bool)
    ensures IsSubsequence(Filter(s, p), s)
  {
    if s != [] {
      FilterIsSubsequence(s[1..], p);
      if p(s[0]) {
        assert Filter(s, p)[1..] == Filter(s[1..], p);
      }
    }
  }

  /** A filter keeps every occurrence of an accepted value and none of a
      rejected one. */
  lemma {:induction false} FilterMultiset<T(!new)>(s: seq<T>, p: T -> bool)
    ensures forall x :: multiset(Filter(s, p))[x] == if p(x) then multiset(s)[x] else 0
  {
    if s != [] {
      FilterMultiset(s[1..], p);
      assert s == [s[0]] + s[1..];
    }
  }

  /** A filter whose predicate holds everywhere is the identity. */
  lemma {:induction false} FilterKeepsAll<T(!new)>(s: seq<T>, p: T -> bool)
    requires forall i :: 0 <= i < |s| ==> p(s[i])
    ensures Filter(s, p) == s
  {
    if s != [] {
      FilterKeepsAll(s[1..], p);
    }
  }

  /** Filtering twice is filtering once by the conjunction; hence consecutive
      filters commute. */
  lemma {:induction false} FilterFilter<T(!new)>(s: seq<T>, p: T -> bool, q: T -> bool)
    ensures Filter(Filter(s, p), q) == Filter(s, x => p(x) && q(x))
  {
    if s != [] {
      FilterFilter(s[1..], p, q);
      if p(s[0]) {
        assert Filter(s, p) == [s[0]] + Filter(s[1..], p);
        assert Filter(s, p)[1..] == Filter(s[1..], p);
      }
    }
  }

  /** Filters with pointwise-equal predicates agree. */
  lemma {:induction false} FilterCongruent<T(!new)>(s: seq<T>, p: T -> bool, q: T -> bool)
    requires forall i :: 0 <= i < |s| ==> p(s[i]) == q(s[i])
    ensures Filter(s, p) == Filter(s, q)
  {
    if s != [] {
      FilterCongruent(s[1..], p, q);
    }
  }

  /** Number of elements satisfying `p`. */
  function Count<T(==,!new)>(s: seq<T>, p: T -> bool): (n: nat)
    ensures n <= |s|
  {
    |Filter(s, p)|
  }

  predicate Distinct<T(==)>(s: seq<T>) {
    forall i, j :: 0 <= i < j < |s| ==> s[i] != s[j]
  }

  /** Number of elements whose key under `f` is `k`. */
  function CountKey<T, K(==)>(s: seq<T>, f: T -> K, k: K): (n: nat)
    ensures n <= |s|
  {
    if s == [] then 0
    else (if f(s[0]) == k then 1 else 0) + CountKey(s[1..], f, k)
  }

  /** Counting over a list extended at the end. */
  lemma {:induction false} CountKeyAppend<T, K>(s: seq<T>, x: T, f: T -> K, k: K)
    ensures CountKey(s + [x], f, k) == CountKey(s, f, k) + (if f(x) == k then 1 else 0)
  {
    if s != [] {
      assert (s + [x])[1..] == s[1..] + [x];
      CountKeyAppend(s[1..], x, f, k);
    }
  }

  /** Counting over one more element of a prefix, for every key at once. */
  lemma CountKeyPrefixStep<T, K>(s: seq<T>, i: int, f: T -> K)
    requires 0 <= i < |s|
    ensures forall k :: CountKey(s[..i + 1], f, k) == CountKey(s[..i], f, k) + (if f(s[i]) == k then 1 else 0)
  {
    assert s[..i + 1] == s[..i] + [s[i]];
    forall k ensures CountKey(s[..i + 1], f, k) == CountKey(s[..i], f, k) + (if f(s[i]) == k then 1 else 0) {
      CountKeyAppend(s[..i], s[i], f, k);
    }
  }

  /** Sum of the per-key counts over the list of keys `ks`. */
  function SumCounts<T, K(==)>(s: seq<T>, f: T -> K, ks: seq<K>): nat {
    if ks == [] then 0 else CountKey(s, f, ks[0]) + SumCounts(s, f, ks[1..])
  }

  /** Number of keys in `ks` equal to `k`. */
  function Hits<K(==)>(k: K, ks: seq<K>): nat {
    if ks == [] then 0 else (if ks[0] == k then 1 else 0) + Hits(k, ks[1..])
  }

  lemma {:induction false} HitsDistinct<K>(k: K, ks: seq<K>)
    requires Distinct(ks)
    ensures Hits(k, ks) <= 1
    ensures Hits(k, ks) == 1 <==> k in ks
  {
    if ks != [] {
      assert Distinct(ks[1..]) by {
        forall i, j | 0 <= i < j < |ks[1..]| ensures ks[1..][i] != ks[1..][j] {
          assert ks[1..][i] == ks[i + 1] && ks[1..][j] == ks[j + 1];
        }
      }
      HitsDistinct(k, ks[1..]);
      if ks[0] == k {
        assert k !in ks[1..] by {
          forall j | 0 <= j < |ks[1..]| ensures ks[1..][j] != k {
            assert ks[1..][j] == ks[j + 1];
          }
        }
      }
    }
  }

  lemma {:induction false} SumCountsEmpty<T, K>(f: T -> K, ks: seq<K>)
    ensures SumCounts([], f, ks) == 0
  {
    if ks != [] {
      SumCountsEmpty(f, ks[1..]);
    }
  }

  lemma {:induction false} SumCountsCons<T, K>(s: seq<T>, f: T -> K, ks: seq<K>)
    requires s != []
    ensures SumCounts(s, f, ks) == Hits(f(s[0]), ks) + SumCounts(s[1..], f, ks)
  {
    if ks != [] {
      SumCountsCons(s, f, ks[1..]);
    }
  }

  /** With distinct keys every element is counted under at most one key, so
      the per-key counts add up to at most the number of elements. */
  lemma {:induction false} SumCountsBound<T, K>(s: seq<T>, f: T -> K, ks: seq<K>)
    requires Distinct(ks)
    ensures SumCounts(s, f, ks) <= |s|
  {
    if s == [] {
      SumCountsEmpty(f, ks);
    } else {
      SumCountsCons(s, f, ks);
      HitsDistinct(f(s[0]), ks);
      SumCountsBound(s[1..], f, ks);
    }
  }

  /** A filter whose predicate holds nowhere in `s` is empty. */
  lemma {:induction false} FilterNone<T(!new)>(s: seq<T>, p: T -> bool)
    requires forall x :: x in s ==> !p(x)
    ensures Filter(s, p) == []
  {
    if s != [] {
      assert s[0] in s;
      FilterNone(s[1..], p);
    }
  }

  /** Filtering by `p` then by `q` is filtering by any `c` equivalent to
      their conjunction. */
  lemma FilterAnd<T(!new)>(s: seq<T>, p: T -> bool, q: T -> bool, c: T -> bool)
    requires forall x :: c(x) == (p(x) && q(x))
    ensures Filter(Filter(s, p), q) == Filter(s, c)
  {
    FilterFilter(s, p, q);
    FilterCongruent(s, x => p(x) && q(x), c);
  }

  /** The per-key count is the length of the filter by that key. */
  lemma {:induction false} CountKeyFilter<T(!new), K>(s: seq<T>, f: T -> K, k: K, p: T -> bool)
    requires forall x :: p(x) == (f(x) == k)
    ensures CountKey(s, f, k) == |Filter(s, p)|
  {
    if s != [] {
      CountKeyFilter(s[1..], f, k, p);
    }
  }

  /** With distinct keys, the per-key counts add up to exactly the number of
      elements whose key is one of them. */
  lemma {:induction false} SumCountsExact<T(!new), K>(s: seq<T>, f: T -> K, ks: seq<K>, p: T -> bool)
    requires Distinct(ks)
    requires forall x :: p(x) == (f(x) in ks)
    ensures SumCounts(s, f, ks) == |Filter(s, p)|
  {
    if s == [] {
      SumCountsEmpty(f, ks);
    } else {
      SumCountsCons(s, f, ks);
      HitsDistinct(f(s[0]), ks);
      SumCountsExact(s[1..], f, ks, p);
    }
  }

  /** Filtering distributes over concatenation. */
  lemma {:induction false} FilterAppend<T(!new)>(a: seq<T>, b: seq<T>, p: T -> bool)
    ensures Filter(a + b, p) == Filter(a, p) + Filter(b, p)
  {
    if a == [] {
      assert a + b == b;
    } else {
      var ab := a + b;
      assert ab != [] && ab[0] == a[0] && ab[1..] == a[1..] + b;
      FilterAppend(a[1..], b, p);
      if p(a[0]) {
        calc {
          Filter(ab, p);
          [a[0]] + Filter(a[1..] + b, p);
          [a[0]] + (Filter(a[1..], p) + Filter(b, p));
          ([a[0]] + Filter(a[1..], p)) + Filter(b, p);
        }
      }
    }
  }

  /** A weaker predicate counts at least as many elements. */
  lemma {:induction false} CountMonotone<T(!new)>(s: seq<T>, p: T -> bool, q: T -> bool)
    requires forall x :: p(x) ==> q(x)
    ensures Count(s, p) <= Count(s, q)
  {
    if s != [] {
      CountMonotone(s[1..], p, q);
    }
  }

  /** Filtering a list without repeats gives a list without repeats. */
  lemma {:induction false} FilterDistinct<T(!new)>(s: seq<T>, p: T -> bool)
    requires Distinct(s)
    ensures Distinct(Filter(s, p))
  {
    if s != [] {
      assert Distinct(s[1..]) by {
        forall i, j | 0 <= i < j < |s[1..]| ensures s[1..][i] != s[1..][j] {
          assert s[1..][i] == s[i + 1] && s[1..][j] == s[j + 1];
        }
      }
      FilterDistinct(s[1..], p);
      assert s[0] !in s[1..] by {
        forall j | 0 <= j < |s[1..]| ensures s[1..][j] != s[0] {
          assert s[1..][j] == s[j + 1];
        }
      }
    }
  }

  /** Sum of a sequence of reals. */
  function SumReals(s: seq<real>): real {
    if s == [] then 0.0 else s[0] + SumReals(s[1..])
  }
}
