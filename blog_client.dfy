/**
 * The blog client component: the posts it was given, filtered by a
 * search term, a category and a relative date window measured from the
 * current time (passed in as `now`).
 */
module BlogClient {
  import opened Seqs
  import opened BlogPosts

  /** The three filter controls; the initial state is `InitialFilters`. */
  datatype FilterState = FilterState(searchTerm: string, selectedCategory: string, dateFilter: string)

  const InitialFilters := FilterState("", AllCategory, AllTime)

  /** The labels of the date buttons. */
  const AllTime: string := "All time"
  const LastThirtyDays: string := "Last 30 days"
  const LastSevenDays: string := "Last 7 days"

  /** Milliseconds in a day; calendar and daylight-saving effects of `setDate` are not modelled. */
  const Day: int := 86_400_000

  /** `t.setDate(t.getDate() + days)`. */
  function ShiftDays(t: int, days: int): (r: int)
    ensures days < 0 ==> r < t
    ensures days == 0 ==> r == t
    ensures days > 0 ==> r > t
    ensures (r - t) % Day == 0
  {
    t + days * Day
  }

  datatype Thresholds = Thresholds(sevenDaysAgo: int, thirtyDaysAgo: int)

  /**
   * The two cut-offs, computed as the component does with one mutable date:
   * step back 7 days (and copy), step forward 7 days to restore it, then
   * step back 30 days (and copy).
   */
  function DateThresholds(now: int): (r: Thresholds)
    ensures r.sevenDaysAgo == now - 7 * Day
    ensures r.thirtyDaysAgo == now - 30 * Day
  {
    var afterBack7 := ShiftDays(now, -7);
    var sevenDaysAgo := afterBack7;
    var restored := ShiftDays(afterBack7, 7);
    var thirtyDaysAgo := ShiftDays(restored, -30);
    Thresholds(sevenDaysAgo, thirtyDaysAgo)
  }

  /** The date predicate: a lower bound only, inclusive; unknown labels keep everything. */
  predicate MatchesDate(post: Post, dateFilter: string, th: Thresholds)
    ensures !MatchesDate(post, dateFilter, th) ==> dateFilter == LastSevenDays || dateFilter == LastThirtyDays
    ensures post.publishedAt >= th.sevenDaysAgo && post.publishedAt >= th.thirtyDaysAgo ==> MatchesDate(post, dateFilter, th)
  {
    if dateFilter == AllTime then true
    else if dateFilter == LastSevenDays then post.publishedAt >= th.sevenDaysAgo
    else if dateFilter == LastThirtyDays then post.publishedAt >= th.thirtyDaysAgo
    else true
  }

  function DateFilter(dateFilter: string, th: Thresholds): Post -> bool
  {
    post => MatchesDate(post, dateFilter, th)
  }

  /** The three chained `.filter` calls: search, then category, then date. */
  function FilteredPosts(posts: seq<Post>, f: FilterState, now: int): (r: seq<Post>)
    ensures |r| <= |posts|
    ensures forall post :: post in r ==> post in posts && Shown(post, f, now)
  {
    var th := DateThresholds(now);
    Filter(Filter(Filter(posts, SearchFilter(f.searchTerm)), CategoryFilter(f.selectedCategory)),
           DateFilter(f.dateFilter, th))
  }

  /** Whether one post passes all three filters. */
  predicate Shown(post: Post, f: FilterState, now: int)
  {
    && MatchesSearch(post, f.searchTerm)
    && MatchesCategory(post, f.selectedCategory)
    && MatchesDate(post, f.dateFilter, DateThresholds(now))
  }

  function ShownFilter(f: FilterState, now: int): Post -> bool
  {
    post => Shown(post, f, now)
  }

  /** The chain is one filter by the conjunction of the three predicates. */
  lemma FilteredPostsIsOneFilter(posts: seq<Post>, f: FilterState, now: int)
    ensures FilteredPosts(posts, f, now) == Filter(posts, ShownFilter(f, now))
  {
    var s, c, d := SearchFilter(f.searchTerm), CategoryFilter(f.selectedCategory), DateFilter(f.dateFilter, DateThresholds(now));
    FilterFusion(posts, s, c);
    FilterFusion(Filter(posts, s), c, d);
    FilterFusion(posts, Both(s, c), d);
    FilterCongruent(posts, Both(Both(s, c), d), ShownFilter(f, now));
  }

  /** The result is an order-preserving subsequence of the posts. */
  lemma FilteredPostsIsSubsequence(posts: seq<Post>, f: FilterState, now: int)
    ensures IsSubsequence(FilteredPosts(posts, f, now), posts)
  {
    FilteredPostsIsOneFilter(posts, f, now);
    FilterIsSubsequence(posts, ShownFilter(f, now));
  }

  /** A post is listed iff it is one of the posts and passes all three filters. */
  lemma FilteredPostsMembers(posts: seq<Post>, f: FilterState, now: int, post: Post)
    ensures post in FilteredPosts(posts, f, now) <==> post in posts && Shown(post, f, now)
  {
    FilteredPostsIsOneFilter(posts, f, now);
    FilterMembers(posts, ShownFilter(f, now), post);
  }

  /** With the initial controls ("", "All", "All time") every post is listed, in order. */
  lemma InitialFiltersKeepAll(posts: seq<Post>, now: int)
    ensures FilteredPosts(posts, InitialFilters, now) == posts
  {
    FilteredPostsIsOneFilter(posts, InitialFilters, now);
    FilterKeepsAll(posts, ShownFilter(InitialFilters, now));
  }

  /** "All time", and any label that is not one of the two windows, applies no date bound. */
  lemma NoWindowKeepsAllDates(posts: seq<Post>, f: FilterState, now: int)
    requires f.dateFilter != LastSevenDays && f.dateFilter != LastThirtyDays
    ensures FilteredPosts(posts, f, now)
         == Filter(Filter(posts, SearchFilter(f.searchTerm)), CategoryFilter(f.selectedCategory))
  {
    var mid := Filter(Filter(posts, SearchFilter(f.searchTerm)), CategoryFilter(f.selectedCategory));
    FilterKeepsAll(mid, DateFilter(f.dateFilter, DateThresholds(now)));
  }

  /** "Last 7 days" keeps exactly the posts dated at or after now minus 7 days. */
  lemma LastSevenDaysWindow(posts: seq<Post>, f: FilterState, now: int, post: Post)
    requires f.dateFilter == LastSevenDays
    ensures post in FilteredPosts(posts, f, now)
        <==> && post in posts
             && MatchesSearch(post, f.searchTerm)
             && MatchesCategory(post, f.selectedCategory)
             && post.publishedAt >= now - 7 * Day
  {
    FilteredPostsMembers(posts, f, now, post);
  }

  /** "Last 30 days" keeps exactly the posts dated at or after now minus 30 days. */
  lemma LastThirtyDaysWindow(posts: seq<Post>, f: FilterState, now: int, post: Post)
    requires f.dateFilter == LastThirtyDays
    ensures post in FilteredPosts(posts, f, now)
        <==> && post in posts
             && MatchesSearch(post, f.searchTerm)
             && MatchesCategory(post, f.selectedCategory)
             && post.publishedAt >= now - 30 * Day
  {
    FilteredPostsMembers(posts, f, now, post);
  }

  /** Neither window has an upper bound: a post dated after `now` is not excluded by date. */
  lemma FuturePostsKept(posts: seq<Post>, f: FilterState, now: int, post: Post)
    requires post in posts && MatchesSearch(post, f.searchTerm) && MatchesCategory(post, f.selectedCategory)
    requires post.publishedAt >= now
    ensures post in FilteredPosts(posts, f, now)
  {
    FilteredPostsMembers(posts, f, now, post);
  }

  /** For the same `now` and other controls, the 7-day list is a subsequence of the 30-day list. */
  lemma SevenDaysWithinThirty(posts: seq<Post>, f: FilterState, now: int)
    ensures IsSubsequence(FilteredPosts(posts, f.(dateFilter := LastSevenDays), now),
                          FilteredPosts(posts, f.(dateFilter := LastThirtyDays), now))
  {
    var th := DateThresholds(now);
    var mid := Filter(Filter(posts, SearchFilter(f.searchTerm)), CategoryFilter(f.selectedCategory));
    FilterMonotone(mid, DateFilter(LastSevenDays, th), DateFilter(LastThirtyDays, th));
  }

}
