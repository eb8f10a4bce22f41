/**
 * Sequence operations the widgets are built from: JavaScript's `filter`,
 * `flatMap` and `Array.from(new Set(...))`, with the relations (subsequence,
 * ordering, first appearance) used to state what they preserve.
 */
module Seqs {

  /** `a` can be obtained from `b` by deleting elements: nothing reordered, nothing invented. */
  predicate IsSubsequence<T(==)>(a: seq<T>, b: seq<T>)
    decreases |b|
  {
    a == [] || (b != [] && ((a[0] == b[0] && IsSubsequence(a[1..], b[1..])) || IsSubsequence(a, b[1..])))
  }

  /** Every earlier element stands in relation `before` to every later one. */
  predicate Ordered<T>(s: seq<T>, before: (T, T) -> bool)
  {
    forall i, j :: 0 <= i < j < |s| ==> before(s[i], s[j])
  }

  predicate NoDuplicates<T(==)>(s: seq<T>)
  {
    forall i, j :: 0 <= i < j < |s| ==> s[i] != s[j]
  }

  /** `Array.prototype.filter`: the elements satisfying `p`, in their original order. */
  function Filter<T>(s: seq<T>, p: T -> bool): (r: seq<T>)
    ensures |r| <= |s|
    ensures forall x :: x in r ==> x in s && p(x)
    decreases |s|
  {
    if s == [] then [] else (if p(s[0]) then [s[0]] else []) + Filter(s[1..], p)
  }

  /** The conjunction of two predicates, as one predicate value. */
  function Both<T>(p: T -> bool, q: T -> bool): T -> bool
  {
    x => p(x) && q(x)
  }

  /** `Array.prototype.flatMap`: the concatenation of `f` applied to each element in turn. */
  function FlatMap<A, B>(s: seq<A>, f: A -> seq<B>): (r: seq<B>)
    ensures forall a :: a in s ==> |f(a)| <= |r|
    decreases |s|
  {
    if s == [] then [] else f(s[0]) + FlatMap(s[1..], f)
  }

  /** The index of the first occurrence of `x` in `s`. */
  function FirstIndex<T(==)>(s: seq<T>, x: T): (i: nat)
    requires x in s
    ensures i < |s| && s[i] == x && x !in s[..i]
    decreases |s|
  {
    if s[0] == x then 0 else 1 + FirstIndex(s[1..], x)
  }

  /**
   * `Array.from(new Set(s))`: each element once, kept at its first occurrence.
   * A JavaScript `Set` iterates in insertion order, and inserting an element
   * already present changes nothing, which is how this is built: scanning `s`
   * from the front, the last element is added only if it was not seen before.
   */
  function Dedup<T(==)>(s: seq<T>): (r: seq<T>)
    ensures forall x :: x in r ==> x in s
    ensures forall x :: x in s ==> x in r
    ensures NoDuplicates(r)
    decreases |s|
  {
    if s == [] then []
    else
      var init, last := s[..|s| - 1], s[|s| - 1];
      assert s == init + [last];
      if last in init then Dedup(init) else Dedup(init) + [last]
  }

  /** The sum, over `keys`, of the number of times each key occurs in `s`. */
  function SumCounts<T(==)>(keys: seq<T>, s: seq<T>): nat
    decreases |keys|
  {
    if keys == [] then 0 else SumCounts(keys[..|keys| - 1], s) + multiset(s)[keys[|keys| - 1]]
  }

  // ----- Slices -----

  /** The prefix one longer is the prefix with the next element appended. */
  lemma TakeNext<T>(s: seq<T>, i: nat)
    requires i < |s|
    ensures s[..i + 1] == s[..i] + [s[i]]
  {
  }

  lemma TakeAll<T>(s: seq<T>)
    ensures s[..|s|] == s
  {
  }

  /** Taking the last element off a list with one appended gives the list back. */
  lemma InitOfSnoc<T>(s: seq<T>, x: T)
    ensures (s + [x])[..|s|] == s && (s + [x])[|s|] == x
  {
  }

  /** Cutting a list at `j` before or after dropping its last element (when `j` is not past it). */
  lemma SplitInit<T>(s: seq<T>, j: nat)
    requires j < |s|
    ensures s[..|s| - 1][..j] == s[..j]
    ensures s[..|s| - 1][j..] + [s[|s| - 1]] == s[j..]
  {
  }

  lemma SplitEnd<T>(s: seq<T>)
    ensures s[..|s|] == s && s[|s|..] == []
  {
  }

  /** Lists that agree from `i` on agree at `i` and from `i + 1` on. */
  lemma SameSuffixes<T>(s: seq<T>, t: seq<T>, i: nat)
    requires i < |s| && |s| == |t| && s[i..] == t[i..]
    ensures s[i] == t[i] && s[i + 1..] == t[i + 1..]
  {
    assert s[i] == s[i..][0] && t[i] == t[i..][0];
    assert s[i + 1..] == s[i..][1..] && t[i + 1..] == t[i..][1..];
  }

  /** A non-empty list is its front followed by its last element. */
  lemma SplitLast<T>(s: seq<T>)
    requires s != []
    ensures s == s[..|s| - 1] + [s[|s| - 1]]
  {
  }

  /** Two tails of which one is empty can be appended in either order. */
  lemma SwapEmptyTail<T>(a: seq<T>, b: seq<T>, c: seq<T>)
    requires b == [] || c == []
    ensures a + b + c == a + c + b
  {
  }

  /** Appending after a three-part list appends to its last part. */
  lemma AppendToLastPart<T>(a: seq<T>, x: T, b: seq<T>, y: T)
    ensures a + [x] + b + [y] == a + [x] + (b + [y])
  {
  }

  // ----- Filter -----

  lemma {:induction false} FilterMembers<T>(s: seq<T>, p: T -> bool, x: T)
    ensures x in Filter(s, p) <==> x in s && p(x)
    decreases |s|
  {
    if s != [] {
      FilterMembers(s[1..], p, x);
      assert s == [s[0]] + s[1..];
    }
  }

  lemma {:induction false} FilterIsSubsequence<T>(s: seq<T>, p: T -> bool)
    ensures IsSubsequence(Filter(s, p), s)
    decreases |s|
  {
    if s != [] {
      FilterIsSubsequence(s[1..], p);
      var rest := Filter(s[1..], p);
      if p(s[0]) {
        assert Filter(s, p) == [s[0]] + rest;
        assert Filter(s, p)[1..] == rest;
      } else {
        assert Filter(s, p) == rest;
      }
    }
  }

  lemma {:induction false} FilterAppend<T>(a: seq<T>, b: seq<T>, p: T -> bool)
    ensures Filter(a + b, p) == Filter(a, p) + Filter(b, p)
    decreases |a|
  {
    if a == [] {
      assert a + b == b;
    } else {
      assert (a + b)[0] == a[0];
      assert (a + b)[1..] == a[1..] + b;
      FilterAppend(a[1..], b, p);
    }
  }

  /** Filtering twice is filtering once by the conjunction: a chain of `.filter` calls. */
  lemma {:induction false} FilterFusion<T>(s: seq<T>, p: T -> bool, q: T -> bool)
    ensures Filter(Filter(s, p), q) == Filter(s, Both(p, q))
    decreases |s|
  {
    if s != [] {
      FilterFusion(s[1..], p, q);
      var rest := Filter(s[1..], p);
      if p(s[0]) {
        assert Filter(s, p) == [s[0]] + rest;
        FilterAppend([s[0]], rest, q);
      } else {
        assert Filter(s, p) == rest;
      }
    }
  }

  /** The result depends only on the predicate's values at the elements of `s`. */
  lemma {:induction false} FilterCongruent<T>(s: seq<T>, p: T -> bool, q: T -> bool)
    requires forall x :: x in s ==> p(x) == q(x)
    ensures Filter(s, p) == Filter(s, q)
    decreases |s|
  {
    if s != [] {
      assert s[0] in s;
      assert forall x :: x in s[1..] ==> x in s;
      FilterCongruent(s[1..], p, q);
    }
  }

  lemma {:induction false} FilterKeepsAll<T>(s: seq<T>, p: T -> bool)
    requires forall x :: x in s ==> p(x)
    ensures Filter(s, p) == s
    decreases |s|
  {
    if s != [] {
      assert s[0] in s;
      assert forall x :: x in s[1..] ==> x in s;
      FilterKeepsAll(s[1..], p);
      assert s == [s[0]] + s[1..];
    }
  }

  /** A weaker predicate keeps more: the stricter result is a subsequence of the looser one. */
  lemma {:induction false} FilterMonotone<T>(s: seq<T>, p: T -> bool, q: T -> bool)
    requires forall x :: x in s ==> (p(x) ==> q(x))
    ensures IsSubsequence(Filter(s, p), Filter(s, q))
    decreases |s|
  {
    if s != [] {
      assert s[0] in s;
      assert forall x :: x in s[1..] ==> x in s;
      FilterMonotone(s[1..], p, q);
      var rp, rq := Filter(s[1..], p), Filter(s[1..], q);
      if p(s[0]) {
        assert Filter(s, p) == [s[0]] + rp && Filter(s, q) == [s[0]] + rq;
        assert Filter(s, p)[1..] == rp && Filter(s, q)[1..] == rq;
      } else if q(s[0]) {
        assert Filter(s, p) == rp && Filter(s, q) == [s[0]] + rq;
        assert Filter(s, q)[1..] == rq;
      } else {
        assert Filter(s, p) == rp && Filter(s, q) == rq;
      }
    }
  }

  /** Filtering keeps any pairwise order the input had (for example, newest first). */
  lemma {:induction false} FilterKeepsOrder<T>(s: seq<T>, p: T -> bool, before: (T, T) -> bool)
    requires Ordered(s, before)
    ensures Ordered(Filter(s, p), before)
    decreases |s|
  {
    if s != [] {
      var rest := Filter(s[1..], p);
      assert Ordered(s[1..], before) by {
        forall i, j | 0 <= i < j < |s[1..]| ensures before(s[1..][i], s[1..][j]) {
          assert s[1..][i] == s[i + 1] && s[1..][j] == s[j + 1];
        }
      }
      FilterKeepsOrder(s[1..], p, before);
      if p(s[0]) {
        var r := [s[0]] + rest;
        assert Filter(s, p) == r;
        forall i, j | 0 <= i < j < |r| ensures before(r[i], r[j]) {
          if i == 0 {
            assert r[j] == rest[j - 1];
            assert r[j] in s[1..];
            var k :| 0 <= k < |s[1..]| && s[1..][k] == r[j];
            assert s[k + 1] == r[j];
          } else {
            assert r[i] == rest[i - 1] && r[j] == rest[j - 1];
          }
        }
      } else {
        assert Filter(s, p) == rest;
      }
    }
  }

  // ----- FlatMap -----

  lemma {:induction false} FlatMapMembers<A, B>(s: seq<A>, f: A -> seq<B>, y: B)
    ensures y in FlatMap(s, f) <==> exists a :: a in s && y in f(a)
    decreases |s|
  {
    if s != [] {
      FlatMapMembers(s[1..], f, y);
      assert forall a :: a in s <==> a == s[0] || a in s[1..];
    }
  }

  lemma FlatMapMembersAll<A, B>(s: seq<A>, f: A -> seq<B>)
    ensures forall y :: y in FlatMap(s, f) <==> exists a :: a in s && y in f(a)
  {
    forall y ensures y in FlatMap(s, f) <==> exists a :: a in s && y in f(a) {
      FlatMapMembers(s, f, y);
    }
  }

  /** Each element's list lies whole in the flattening, between the lists of the elements around it. */
  lemma FlatMapAround<A, B>(s: seq<A>, f: A -> seq<B>, i: nat)
    requires i < |s|
    ensures FlatMap(s, f) == FlatMap(s[..i], f) + f(s[i]) + FlatMap(s[i + 1..], f)
  {
    var before, rest := s[..i], s[i..];
    assert s == before + rest;
    FlatMapAppend(before, rest, f);
    assert rest[0] == s[i] && rest[1..] == s[i + 1..];
    var after := FlatMap(s[i + 1..], f);
    assert FlatMap(rest, f) == f(s[i]) + after;
  }

  lemma {:induction false} FlatMapAppend<A, B>(a: seq<A>, b: seq<A>, f: A -> seq<B>)
    ensures FlatMap(a + b, f) == FlatMap(a, f) + FlatMap(b, f)
    decreases |a|
  {
    if a == [] {
      assert a + b == b;
    } else {
      assert (a + b)[0] == a[0];
      assert (a + b)[1..] == a[1..] + b;
      FlatMapAppend(a[1..], b, f);
    }
  }

  // ----- Dedup -----

  lemma FirstIndexUnique<T>(s: seq<T>, x: T, i: nat)
    requires i < |s| && s[i] == x && x !in s[..i]
    ensures FirstIndex(s, x) == i
  {
  }

  lemma FirstIndexExtend<T>(s: seq<T>, y: T, x: T)
    requires x in s
    ensures FirstIndex(s + [y], x) == FirstIndex(s, x)
  {
    var k := FirstIndex(s, x);
    assert (s + [y])[..k] == s[..k];
    FirstIndexUnique(s + [y], x, k);
  }

  /** One step of `Dedup`: an element already seen adds nothing, a new one goes to the end. */
  lemma DedupAppend<T>(s: seq<T>, x: T)
    ensures Dedup(s + [x]) == if x in s then Dedup(s) else Dedup(s) + [x]
  {
    InitOfSnoc(s, x);
  }

  /** The elements of `Dedup(s)` are listed in the order of their first appearance in `s`. */
  lemma {:induction false} DedupFirstAppearance<T>(s: seq<T>)
    ensures forall i, j :: 0 <= i < j < |Dedup(s)| ==> FirstIndex(s, Dedup(s)[i]) < FirstIndex(s, Dedup(s)[j])
    decreases |s|
  {
    if s != [] {
      var init, last := s[..|s| - 1], s[|s| - 1];
      assert s == init + [last];
      DedupFirstAppearance(init);
      var d := Dedup(init);
      forall y | y in d ensures FirstIndex(s, y) == FirstIndex(init, y) {
        FirstIndexExtend(init, last, y);
      }
      if last !in init {
        FirstIndexUnique(s, last, |init|);
        var r := d + [last];
        forall i, j | 0 <= i < j < |r| ensures FirstIndex(s, r[i]) < FirstIndex(s, r[j]) {
          assert r[i] == d[i] && r[i] in d;
          if j < |d| {
            assert r[j] == d[j] && r[j] in d;
          }
        }
      }
    }
  }

  /** `Dedup(s)` keeps exactly the first occurrences: it is a subsequence of `s`. */
  lemma {:induction false} DedupIsSubsequence<T>(s: seq<T>)
    ensures IsSubsequence(Dedup(s), s)
    decreases |s|
  {
    if s != [] {
      var init, last := s[..|s| - 1], s[|s| - 1];
      assert s == init + [last];
      DedupIsSubsequence(init);
      SubsequenceAppend(Dedup(init), init, [], [last]);
      if last !in init {
        SubsequenceAppend(Dedup(init), init, [last], [last]);
      } else {
        assert Dedup(init) + [] == Dedup(init);
      }
    }
  }

  /** `Dedup` of `[x, x, y]` with `x != y`. */
  lemma DedupOfDistinctPair<T>(x: T, y: T)
    requires x != y
    ensures Dedup([x, x, y]) == [x, y]
  {
    var one, two := [x], [x, x];
    assert one == [] + [x];
    DedupAppend([], x);
    assert two == one + [x];
    DedupAppend(one, x);
    assert [x, x, y] == two + [y] && y !in two;
    DedupAppend(two, y);
  }

  lemma {:induction false} SubsequenceOfEmpty<T>(a: seq<T>)
    requires IsSubsequence(a, [])
    ensures a == []
  {
  }

  lemma {:induction false} SubsequenceReflexive<T>(a: seq<T>)
    ensures IsSubsequence(a, a)
    decreases |a|
  {
    if a != [] {
      SubsequenceReflexive(a[1..]);
    }
  }

  /** Subsequences can be concatenated: `a <= b` and `c <= d` give `a + c <= b + d`. */
  lemma {:induction false} SubsequenceAppend<T>(a: seq<T>, b: seq<T>, c: seq<T>, d: seq<T>)
    requires IsSubsequence(a, b)
    requires IsSubsequence(c, d) || c == d
    ensures IsSubsequence(a + c, b + d)
    decreases |b|
  {
    if c == d {
      SubsequenceReflexive(c);
    }
    if b == [] {
      SubsequenceOfEmpty(a);
      assert a + c == c && b + d == d;
    } else if a == [] {
      SubsequenceAppend(a, b[1..], c, d);
      assert (b + d)[1..] == b[1..] + d;
    } else if a[0] == b[0] && IsSubsequence(a[1..], b[1..]) {
      SubsequenceAppend(a[1..], b[1..], c, d);
      assert (a + c)[1..] == a[1..] + c;
      assert (b + d)[1..] == b[1..] + d;
    } else {
      SubsequenceAppend(a, b[1..], c, d);
      assert (b + d)[1..] == b[1..] + d;
    }
  }

  lemma {:induction false} SubsequenceTransitive<T>(a: seq<T>, b: seq<T>, c: seq<T>)
    requires IsSubsequence(a, b) && IsSubsequence(b, c)
    ensures IsSubsequence(a, c)
    decreases |c|
  {
    if a != [] {
      if c == [] {
        SubsequenceOfEmpty(b);
      } else if b != [] && b[0] == c[0] && IsSubsequence(b[1..], c[1..]) {
        if a[0] == b[0] && IsSubsequence(a[1..], b[1..]) {
          SubsequenceTransitive(a[1..], b[1..], c[1..]);
        } else {
          SubsequenceTransitive(a, b[1..], c[1..]);
        }
      } else {
        SubsequenceTransitive(a, b, c[1..]);
      }
    }
  }

  lemma CountOfDistinct<T>(keys: seq<T>, x: T)
    requires NoDuplicates(keys)
    ensures multiset(keys)[x] == if x in keys then 1 else 0
    decreases |keys|
  {
    if keys != [] {
      var init, last := keys[..|keys| - 1], keys[|keys| - 1];
      assert keys == init + [last];
      CountOfDistinct(init, x);
      assert last !in init;
    }
  }

  lemma {:induction false} SumCountsExtend<T>(keys: seq<T>, s: seq<T>, x: T)
    ensures SumCounts(keys, s + [x]) == SumCounts(keys, s) + multiset(keys)[x]
    decreases |keys|
  {
    if keys != [] {
      var init := keys[..|keys| - 1];
      assert keys == init + [keys[|keys| - 1]];
      SumCountsExtend(init, s, x);
    }
  }

  lemma SumCountsAppendKey<T>(keys: seq<T>, k: T, s: seq<T>)
    ensures SumCounts(keys + [k], s) == SumCounts(keys, s) + multiset(s)[k]
  {
    assert (keys + [k])[..|keys|] == keys;
  }

  /** Counting each distinct element of `s` once per occurrence accounts for all of `s`. */
  lemma {:induction false} SumCountsOverDedup<T>(s: seq<T>)
    ensures SumCounts(Dedup(s), s) == |s|
    decreases |s|
  {
    if s != [] {
      var init, last := s[..|s| - 1], s[|s| - 1];
      assert s == init + [last];
      SumCountsOverDedup(init);
      var d := Dedup(init);
      SumCountsExtend(d, init, last);
      CountOfDistinct(d, last);
      if last !in init {
        SumCountsAppendKey(d, last, s);
        assert multiset(init)[last] == 0;
      }
    }
  }

}
