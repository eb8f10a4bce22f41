/**
 * The blog page: it starts with no posts, sorts the fetched posts newest
 * first in place and keeps them, then lists those that pass the search and
 * the category filters.
 */
module BlogPage {
  import opened Seqs
  import opened BlogPosts
  import BlogClient

  /** The sort's comparator `(a, b) => b.date - a.date`: positive when `b` must come first. */
  function CompareNewestFirst(a: Post, b: Post): (r: int)
    ensures r < 0 <==> a.publishedAt > b.publishedAt
    ensures r == 0 <==> a.publishedAt == b.publishedAt
    ensures r > 0 <==> a.publishedAt < b.publishedAt
  {
    b.publishedAt - a.publishedAt
  }

  /** `a` may stay before `b` exactly when the comparator does not put `b` first. */
  predicate NotOlder(a: Post, b: Post)
    ensures NotOlder(a, b) <==> CompareNewestFirst(a, b) <= 0
    ensures !NotOlder(a, b) ==> CompareNewestFirst(b, a) < 0
  {
    a.publishedAt >= b.publishedAt
  }

  predicate NewestFirst(s: seq<Post>)
  {
    Ordered(s, NotOlder)
  }

  /**
   * Inserts `x` into a newest-first list after every post at least as new as
   * it: a post never overtakes an equally dated one, which is what makes the
   * sort stable.
   */
  function Insert(s: seq<Post>, x: Post): (r: seq<Post>)
    ensures multiset(r) == multiset(s) + multiset{x}
    decreases |s|
  {
    if s == [] || NotOlder(s[|s| - 1], x) then s + [x]
    else
      var init, last := s[..|s| - 1], s[|s| - 1];
      assert s == init + [last];
      Insert(init, x) + [last]
  }

  /** The stable newest-first order of `fetchedPosts.sort(...)`, as insertion sort defines it. */
  function SortNewestFirst(s: seq<Post>): (r: seq<Post>)
    ensures multiset(r) == multiset(s)
    decreases |s|
  {
    if s == [] then []
    else
      var init, last := s[..|s| - 1], s[|s| - 1];
      assert s == init + [last];
      Insert(SortNewestFirst(init), last)
  }

  /** The posts dated exactly `t`, as a predicate for `Filter`. */
  function DatedAt(t: int): Post -> bool
  {
    (post: Post) => post.publishedAt == t
  }

  /** The filters of the page: search, then category (no date filter). */
  function PageFilteredPosts(posts: seq<Post>, term: string, category: string): (r: seq<Post>)
    ensures |r| <= |posts|
    ensures forall post :: post in r ==> post in posts && MatchesSearch(post, term) && MatchesCategory(post, category)
  {
    Filter(Filter(posts, SearchFilter(term)), CategoryFilter(category))
  }

  // ----- The sort -----

  lemma {:induction false} InsertKeepsNewestFirst(s: seq<Post>, x: Post)
    requires NewestFirst(s)
    ensures NewestFirst(Insert(s, x))
    decreases |s|
  {
    if s != [] && !NotOlder(s[|s| - 1], x) {
      var init, last := s[..|s| - 1], s[|s| - 1];
      assert NewestFirst(init) by {
        forall i, j | 0 <= i < j < |init| ensures NotOlder(init[i], init[j]) {
          assert init[i] == s[i] && init[j] == s[j];
        }
      }
      InsertKeepsNewestFirst(init, x);
      var mid := Insert(init, x);
      var r := mid + [last];
      forall i, j | 0 <= i < j < |r| ensures NotOlder(r[i], r[j]) {
        if j < |mid| {
          assert r[i] == mid[i] && r[j] == mid[j];
        } else {
          assert r[i] == mid[i] && r[i] in multiset(mid);
          if r[i] != x {
            assert r[i] in init;
            var k :| 0 <= k < |init| && init[k] == r[i];
            assert s[k] == r[i];
          }
        }
      }
    }
  }

  /** The sorted list is ordered by non-increasing date. */
  lemma {:induction false} SortIsNewestFirst(s: seq<Post>)
    ensures NewestFirst(SortNewestFirst(s))
    decreases |s|
  {
    if s != [] {
      SortIsNewestFirst(s[..|s| - 1]);
      InsertKeepsNewestFirst(SortNewestFirst(s[..|s| - 1]), s[|s| - 1]);
    }
  }

  lemma {:induction false} InsertKeepsDateOrder(s: seq<Post>, x: Post, t: int)
    ensures Filter(Insert(s, x), DatedAt(t)) == Filter(s, DatedAt(t)) + Filter([x], DatedAt(t))
    decreases |s|
  {
    if s == [] || NotOlder(s[|s| - 1], x) {
      FilterAppend(s, [x], DatedAt(t));
    } else {
      var init, last, p := s[..|s| - 1], s[|s| - 1], DatedAt(t);
      SplitLast(s);
      var mid := Insert(init, x);
      assert Insert(s, x) == mid + [last];
      InsertKeepsDateOrder(init, x, t);
      FilterAppend(mid, [last], p);
      FilterAppend(init, [last], p);
      var fl, fx := Filter([last], p), Filter([x], p);
      assert fl == [] || fx == [] by {
        assert fl == (if p(last) then [last] else []) + Filter([last][1..], p);
        assert fx == (if p(x) then [x] else []) + Filter([x][1..], p);
      }
      SwapEmptyTail(Filter(init, p), fl, fx);
    }
  }

  /** Stability: the posts of any one date keep the relative order they were fetched in. */
  lemma {:induction false} SortIsStable(s: seq<Post>, t: int)
    ensures Filter(SortNewestFirst(s), DatedAt(t)) == Filter(s, DatedAt(t))
    decreases |s|
  {
    if s != [] {
      var init, last := s[..|s| - 1], s[|s| - 1];
      assert s == init + [last];
      SortIsStable(init, t);
      InsertKeepsDateOrder(SortNewestFirst(init), last, t);
      FilterAppend(init, [last], DatedAt(t));
    }
  }

  /**
   * Where `Insert` puts `x`: after the prefix `s[..j]` when every post from
   * `j` on is strictly older than `x` and the post before `j` (if any) is not.
   */
  lemma {:induction false} InsertLandsAt(s: seq<Post>, x: Post, j: nat)
    requires j <= |s|
    requires j == 0 || NotOlder(s[j - 1], x)
    requires forall k :: j <= k < |s| ==> !NotOlder(s[k], x)
    ensures Insert(s, x) == s[..j] + [x] + s[j..]
    decreases |s|
  {
    if j == |s| {
      SplitEnd(s);
    } else {
      var init, last := s[..|s| - 1], s[|s| - 1];
      assert !NotOlder(last, x);
      InsertLandsAt(init, x, j);
      SplitInit(s, j);
      AppendToLastPart(init[..j], x, init[j..], last);
    }
  }

  lemma SortStep(s: seq<Post>, i: nat)
    requires i < |s|
    ensures SortNewestFirst(s[..i + 1]) == Insert(SortNewestFirst(s[..i]), s[i])
  {
    assert s[..i + 1][..i] == s[..i];
  }

  /** The three parts of a list with `x` inserted at `j`, checked position by position. */
  lemma Assemble(b: seq<Post>, s: seq<Post>, x: Post, j: nat)
    requires j <= |s| && |b| == |s| + 1
    requires forall k :: 0 <= k < j ==> b[k] == s[k]
    requires b[j] == x
    requires forall k :: j < k < |b| ==> b[k] == s[k - 1]
    ensures b == s[..j] + [x] + s[j..]
  {
    var r := s[..j] + [x] + s[j..];
    forall k | 0 <= k < |b| ensures b[k] == r[k] {
      if k < j {
        assert r[k] == s[k];
      } else if k > j {
        assert r[k] == s[k - 1];
      }
    }
  }

  /**
   * The inner loop of insertion sort: moves every post before `i` that is
   * strictly older than `x` one place right and returns the gap left for `x`.
   */
  method ShiftOlder(a: array<Post>, i: nat, x: Post) returns (j: nat)
    requires i < a.Length
    modifies a
    ensures j <= i
    ensures forall k :: 0 <= k < j ==> a[k] == old(a[k])
    ensures forall k :: j < k <= i ==> a[k] == old(a[k - 1])
    ensures forall k :: i < k < a.Length ==> a[k] == old(a[k])
    ensures j == 0 || NotOlder(old(a[j - 1]), x)
    ensures forall k :: j <= k < i ==> !NotOlder(old(a[k]), x)
  {
    j := i;
    while j > 0 && CompareNewestFirst(a[j - 1], x) > 0
      invariant 0 <= j <= i
      invariant forall k :: 0 <= k < j ==> a[k] == old(a[k])
      invariant forall k :: j < k <= i ==> a[k] == old(a[k - 1])
      invariant forall k :: i < k < a.Length ==> a[k] == old(a[k])
      invariant forall k :: j <= k < i ==> !NotOlder(old(a[k]), x)
    {
      a[j] := a[j - 1];
      j := j - 1;
    }
  }

  /**
   * One pass of insertion sort: `a[..i]` is sorted and `a[i]` moves left past
   * every strictly older post.
   */
  method InsertAt(a: array<Post>, i: nat)
    requires i < a.Length
    modifies a
    ensures a[..i + 1] == Insert(old(a[..i]), old(a[i]))
    ensures a[i + 1..] == old(a[i + 1..])
  {
    ghost var sorted := a[..i];
    ghost var rest := a[i + 1..];
    var x := a[i];
    var j := ShiftOlder(a, i, x);
    a[j] := x;
    assert a[i + 1..] == rest;
    InsertLandsAt(sorted, x, j);
    Assemble(a[..i + 1], sorted, x, j);
  }

  /** `fetchedPosts.sort((a, b) => b.date - a.date)`, in place. */
  method SortInPlace(a: array<Post>)
    modifies a
    ensures a[..] == SortNewestFirst(old(a[..]))
  {
    ghost var input := a[..];
    var i := 0;
    while i < a.Length
      invariant 0 <= i <= a.Length
      invariant a[..i] == SortNewestFirst(input[..i])
      invariant a[i..] == input[i..]
    {
      ghost var before := a[..];
      SameSuffixes(before, input, i);
      InsertAt(a, i);
      SortStep(input, i);
      i := i + 1;
    }
    TakeAll(input);
  }

  // ----- The filters -----

  /** A post is listed iff it is one of the posts and passes both filters. */
  lemma PageFilterMembers(posts: seq<Post>, term: string, category: string, post: Post)
    ensures post in PageFilteredPosts(posts, term, category)
        <==> post in posts && MatchesSearch(post, term) && MatchesCategory(post, category)
  {
    FilterMembers(Filter(posts, SearchFilter(term)), CategoryFilter(category), post);
    FilterMembers(posts, SearchFilter(term), post);
  }

  /** Applying the category filter first lists the same posts in the same order. */
  lemma PageFiltersCommute(posts: seq<Post>, term: string, category: string)
    ensures PageFilteredPosts(posts, term, category)
         == Filter(Filter(posts, CategoryFilter(category)), SearchFilter(term))
  {
    var s, c := SearchFilter(term), CategoryFilter(category);
    FilterFusion(posts, s, c);
    FilterFusion(posts, c, s);
    FilterCongruent(posts, Both(s, c), Both(c, s));
  }

  /** The listed posts are a subsequence of the sorted posts, hence newest first too. */
  lemma PageFilterKeepsNewestFirst(posts: seq<Post>, term: string, category: string)
    requires NewestFirst(posts)
    ensures IsSubsequence(PageFilteredPosts(posts, term, category), posts)
    ensures NewestFirst(PageFilteredPosts(posts, term, category))
  {
    var mid := Filter(posts, SearchFilter(term));
    FilterIsSubsequence(posts, SearchFilter(term));
    FilterIsSubsequence(mid, CategoryFilter(category));
    SubsequenceTransitive(PageFilteredPosts(posts, term, category), mid, posts);
    FilterKeepsOrder(posts, SearchFilter(term), NotOlder);
    FilterKeepsOrder(mid, CategoryFilter(category), NotOlder);
  }

  /** The page's filtering is the client component's with the date control at "All time". */
  lemma PageFilterIsClientAllTime(posts: seq<Post>, term: string, category: string, now: int)
    ensures PageFilteredPosts(posts, term, category)
         == BlogClient.FilteredPosts(posts, BlogClient.FilterState(term, category, BlogClient.AllTime), now)
  {
    BlogClient.NoWindowKeepsAllDates(posts, BlogClient.FilterState(term, category, BlogClient.AllTime), now);
  }

  /** The page's state: the fetched posts and the two filter controls. */
  class BlogPageState {
    var posts: seq<Post>
    var searchTerm: string
    var selectedCategory: string

    /** Before the fetch completes there are no posts: one "All" button and an empty list. */
    constructor ()
      ensures posts == [] && searchTerm == "" && selectedCategory == AllCategory
      ensures Categories(posts) == [AllCategory]
      ensures PageFilteredPosts(posts, searchTerm, selectedCategory) == []
    {
      posts := [];
      searchTerm := "";
      selectedCategory := AllCategory;
    }

    /** `fetchPosts` once `getBlogPosts()` has resolved with `fetched`: sort in place, then keep. */
    method FetchPosts(fetched: array<Post>)
      modifies this, fetched
      ensures fetched[..] == SortNewestFirst(old(fetched[..]))
      ensures posts == fetched[..]
      ensures NewestFirst(posts) && multiset(posts) == multiset(old(fetched[..]))
      ensures searchTerm == old(searchTerm) && selectedCategory == old(selectedCategory)
    {
      ghost var input := fetched[..];
      SortIsNewestFirst(input);
      SortInPlace(fetched);
      posts := fetched[..];
    }

    method SetSearchTerm(term: string)
      modifies this
      ensures searchTerm == term
      ensures posts == old(posts) && selectedCategory == old(selectedCategory)
    {
      searchTerm := term;
    }

    method SelectCategory(category: string)
      modifies this
      ensures selectedCategory == category
      ensures posts == old(posts) && searchTerm == old(searchTerm)
    {
      selectedCategory := category;
    }
  }

}
