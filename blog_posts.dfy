/**
 * What the two blog views (the client component and the page) have in
 * common: the post record, the case-insensitive search predicate, the
 * category predicate with its "All" sentinel, and the derived list of
 * category buttons.
 */
module BlogPosts {
  import opened Wrappers
  import opened Seqs
  import opened Text

  /**
   * A post and its metadata. `publishedAt` is the post date as a timestamp in
   * milliseconds (the source keeps a date string and parses it on use);
   * `tags` is absent when the metadata has none.
   */
  datatype Post = Post(slug: string, title: string, publishedAt: int, summary: string, tags: Option<seq<string>>)

  /** The category that stands for "no category filter"; also the first button. */
  const AllCategory: string := "All"

  /** Title or summary contains the search term, ignoring case; an empty term is in every text. */
  predicate MatchesSearch(post: Post, term: string)
    ensures term == "" ==> MatchesSearch(post, term)
  {
    Includes(Lower(post.title), Lower(term)) || Includes(Lower(post.summary), Lower(term))
  }

  /** The sentinel passes every post; any other category needs a tag list that contains it. */
  predicate MatchesCategory(post: Post, category: string)
    ensures MatchesCategory(post, category) <==> category == AllCategory || category in TagsOf(post)
  {
    category == AllCategory || (post.tags.Some? && category in post.tags.value)
  }

  function SearchFilter(term: string): Post -> bool
  {
    post => MatchesSearch(post, term)
  }

  function CategoryFilter(category: string): Post -> bool
  {
    post => MatchesCategory(post, category)
  }

  /** `post.metadata.tags || []`. */
  function TagsOf(post: Post): (r: seq<string>)
    ensures post.tags.None? ==> r == []
    ensures forall t :: t in r <==> post.tags.Some? && t in post.tags.value
  {
    if post.tags.Some? then post.tags.value else []
  }

  /** `posts.flatMap(post => post.metadata.tags || [])`. */
  function AllTags(posts: seq<Post>): (r: seq<string>)
    ensures forall t :: t in r <==> exists post :: post in posts && t in TagsOf(post)
  {
    FlatMapMembersAll(posts, TagsOf);
    FlatMap(posts, TagsOf)
  }

  /** `["All", ...Array.from(new Set(allTags))]`: the category buttons, sentinel first. */
  function Categories(posts: seq<Post>): (r: seq<string>)
    ensures |r| >= 1 && r[0] == AllCategory
    ensures r[1..] == Dedup(AllTags(posts))
    ensures NoDuplicates(r[1..])
    ensures IsSubsequence(r[1..], AllTags(posts))
  {
    DedupIsSubsequence(AllTags(posts));
    assert ([AllCategory] + Dedup(AllTags(posts)))[1..] == Dedup(AllTags(posts));
    [AllCategory] + Dedup(AllTags(posts))
  }

  // ----- Search -----

  /** Terms that differ only in letter case select the same posts. */
  lemma SearchIgnoresCase(post: Post, t1: string, t2: string)
    requires Lower(t1) == Lower(t2)
    ensures MatchesSearch(post, t1) == MatchesSearch(post, t2)
  {
  }

  /** A term that occurs verbatim in the title or in the summary matches. */
  lemma SearchFindsVerbatim(post: Post, term: string)
    requires Includes(post.title, term) || Includes(post.summary, term)
    ensures MatchesSearch(post, term)
  {
    if Includes(post.title, term) {
      var i: nat :| OccursAt(post.title, term, i);
      LowerKeepsOccurrence(post.title, term, i);
    } else {
      var i: nat :| OccursAt(post.summary, term, i);
      LowerKeepsOccurrence(post.summary, term, i);
    }
  }

  // ----- Categories -----

  /** Posts without tags never match a real category. */
  lemma UntaggedNeverMatches(post: Post, category: string)
    requires post.tags.None? && category != AllCategory
    ensures !MatchesCategory(post, category)
  {
  }

  /** After the sentinel, the list holds exactly the tags of the posts. */
  lemma CategoriesAreTheTags(posts: seq<Post>, c: string)
    ensures c in Categories(posts)[1..] <==> exists post :: post in posts && c in TagsOf(post)
  {
  }

  /**
   * The category filter and the buttons agree: a category some post passes
   * has a button, and every button after the sentinel is passed by some post.
   */
  lemma MatchedCategoriesAreButtons(posts: seq<Post>, c: string)
    ensures (exists post :: post in posts && MatchesCategory(post, c)) ==> c in Categories(posts)
    ensures c in Categories(posts)[1..] ==> exists post :: post in posts && MatchesCategory(post, c)
  {
    var r := Categories(posts);
    CategoriesAreTheTags(posts, c);
    if c != AllCategory && exists post :: post in posts && MatchesCategory(post, c) {
      assert c in r[1..];
      assert r == [r[0]] + r[1..];
    }
  }

  /** Each tag appears once, in order of its first appearance across the posts and their tags. */
  lemma CategoriesInFirstAppearanceOrder(posts: seq<Post>)
    ensures var r := Categories(posts)[1..];
      forall i, j :: 0 <= i < j < |r| ==> FirstIndex(AllTags(posts), r[i]) < FirstIndex(AllTags(posts), r[j])
  {
    DedupFirstAppearance(AllTags(posts));
  }

  /**
   * Only the tags are de-duplicated: a tag literally named "All" appears a
   * second time after the sentinel, so the whole list can hold a repeat.
   */
  lemma SentinelTagRepeats(posts: seq<Post>)
    requires AllCategory in AllTags(posts)
    ensures !NoDuplicates(Categories(posts))
  {
    var r := Categories(posts);
    assert AllCategory in r[1..];
    var k :| 0 <= k < |r[1..]| && r[1..][k] == AllCategory;
    assert r[0] == r[k + 1];
  }

  /** With no posts (before any are loaded) the only button is the sentinel. */
  lemma CategoriesOfNoPosts()
    ensures Categories([]) == [AllCategory]
  {
  }

}
