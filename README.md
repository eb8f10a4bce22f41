# Portfolio site widgets: a Dafny model

This project models the small pieces of logic inside the widgets of a
personal portfolio site (a Next.js/React application), and proves what
they promise:

- **Blog** (`src/app/blog/blog-client.tsx`, `src/app/blog/page.tsx`):
  - the category buttons, which are `"All"` followed by the de-duplicated tags;
  - the chained search, category and date-window filters;
  - the page's in-place newest-first sort of the fetched posts.
- **Python runner** (`src/components/python-runner.tsx`): the editor and
  console state and its handlers for loading, uploading, editing, clearing
  and running. A run is the sequence of stdout lines the interpreter emits,
  ending normally or with an error message.
- **World map** (`src/components/world-map.tsx`):
  - the visited-country fill;
  - the hover tooltip;
  - the `forEach` that groups visited countries by category.
- **Project card** (`src/components/project-card.tsx`):
  - the slideshow index;
  - the media priority;
  - the printed link text;
  - the card target;
  - the tag and link badge rows.
- **Tech stack** (`src/components/tech-stack.tsx`):
  - the flattened item list;
  - the doubled marquee list and its keys;
  - the grid;
  - the marquee/grid switch.

Modules:

- `Wrappers`: `Option`.
- `Seqs`: filtering, flattening, de-duplication, subsequences, and small slice facts.
- `Text`: ASCII lower case, substring search, JavaScript's first-occurrence
  `String.replace`, and decimal numerals.
- `BlogPosts`, `BlogClient`, `BlogPage`, `ScriptRunner`, `WorldMap`,
  `ProjectCard`, `TechStack`: one per widget, named after the source
  files they model.

How the source's forms and values are represented:

- The stateful parts are classes whose methods update their fields:
  `BlogPage.BlogPageState`, `ScriptRunner.PythonRunner`, `WorldMap.MapHover`,
  `ProjectCard.Slideshow` and `TechStack.TechStackView`.
- The page's sort works in place on an `array`.
- The map's grouping loop builds an ordered list of keys and a `map`, as the
  component builds a dictionary.
- Timestamps are integers in milliseconds, and "N days" is N × 86 400 000.
- The current time `now` is a parameter.

## Model

| member | source | states |
|---|---|---|
| Seqs.Filter | src/app/blog/blog-client.tsx:47-75 | `Array.prototype.filter`: never longer than the input, and every kept element is an input element that satisfies the predicate |
| Seqs.FilterIsSubsequence | src/app/blog/blog-client.tsx:47-75 | the kept elements appear in their input order: the result is a subsequence of the input |
| Seqs.Dedup | src/app/blog/blog-client.tsx:37 | `Array.from(new Set(s))`: exactly the elements of `s`, each once |
| Seqs.FlatMap | src/app/blog/blog-client.tsx:36 | `Array.prototype.flatMap`: the result is never shorter than any one element's list |
| Seqs.FlatMapAround | src/app/blog/blog-client.tsx:36 | each element's list lies whole in the result, between the flattenings of the elements before and after it |
| Seqs.FlatMapMembersAll | src/components/tech-stack.tsx:57 | a value is in the flattened list iff it is in the list of some element |
| Seqs.FlatMapAppend | src/components/tech-stack.tsx:57 | flattening a concatenation concatenates the flattenings, so each element's list follows the earlier ones |
| Text.RemoveFirst | src/components/project-card.tsx:121 | `replace` with a string pattern: a text without the pattern is unchanged, and otherwise exactly one occurrence's length is removed |
| Text.RemoveFirstSplits | src/components/project-card.tsx:121 | the deleted occurrence is the first one, at the index `indexOf` reports, and the rest of the text is kept around it |
| Text.RemoveFirstKeepsLater | src/components/project-card.tsx:121 | an occurrence that starts at or after the end of the first one survives the deletion, shifted left by the pattern's length |
| Text.Lower | src/app/blog/blog-client.tsx:50-55 | `toLowerCase` on ASCII: same length, no capital left, each capital becomes its small letter and every other character is kept |
| Text.LowerKeepsOccurrence | src/app/blog/blog-client.tsx:50-55 | a substring found verbatim is still found once both sides are lower-cased |
| Text.IndexOf | src/app/blog/blog-client.tsx:50-55 | `indexOf`: the position reported is an occurrence with none before it, and none means no occurrence anywhere |
| Text.Includes | src/app/blog/blog-client.tsx:50-55 | `includes` holds iff the pattern occurs somewhere; the empty pattern is in every text |
| Text.NatToString | src/components/project-card.tsx:89 | the number in a template literal: non-empty decimal digits that read back as the number; a single digit below ten, and no leading zero otherwise |
| BlogPosts.MatchesSearch | src/app/blog/blog-client.tsx:49-56 | the case-insensitive title-or-summary test; an empty term matches every post |
| BlogPosts.MatchesCategory | src/app/blog/blog-client.tsx:57-61 | a post passes iff the category is "All" or is one of its tags, a missing tag list counting as none |
| BlogPosts.TagsOf | src/app/blog/blog-client.tsx:36 | `tags \|\| []`: no tag list counts as none, and otherwise its members are the post's tags |
| BlogPosts.AllTags | src/app/blog/blog-client.tsx:36 | a string is in the flattened tags iff it is a tag of some post |
| BlogPosts.Categories | src/app/blog/blog-client.tsx:35-38 | the list starts with "All"; after it come the de-duplicated tags, which hold no repeats and keep the order of the flattened tags |
| BlogPosts.CategoriesAreTheTags | src/app/blog/blog-client.tsx:35-38 | a string follows the sentinel iff it is a tag of some post |
| BlogPosts.CategoriesInFirstAppearanceOrder | src/app/blog/blog-client.tsx:36-37 | the tags are listed in order of their first appearance across the posts and their tags |
| BlogPosts.SentinelTagRepeats | src/app/blog/blog-client.tsx:37 | a tag literally named "All" makes the whole list hold a repeat, because only the tags are de-duplicated |
| BlogPosts.CategoriesOfNoPosts | src/app/blog/page.tsx:31-34 | with no posts the only category is "All" |
| BlogPosts.SearchIgnoresCase | src/app/blog/blog-client.tsx:49-56 | two terms equal up to letter case select the same posts |
| BlogPosts.SearchFindsVerbatim | src/app/blog/blog-client.tsx:49-56 | a term occurring in the title or in the summary matches |
| BlogPosts.UntaggedNeverMatches | src/app/blog/blog-client.tsx:57-61 | a post without tags fails every category except "All" |
| BlogPosts.MatchedCategoriesAreButtons | src/app/blog/blog-client.tsx:35-61 | a category some post passes has a button, and every button after "All" is passed by some post |
| BlogClient.MatchesDate | src/app/blog/blog-client.tsx:63-75 | only the two window labels can exclude a post, and a post dated at or after both cut-offs passes every label |
| BlogClient.ShiftDays | src/app/blog/blog-client.tsx:43-45 | a `setDate` step moves back for a negative count, forward for a positive one, and by whole days |
| BlogClient.FilteredPosts | src/app/blog/blog-client.tsx:41-76 | the list is no longer than the posts, and every listed post is one of them and passes all three filters |
| BlogClient.DateThresholds | src/app/blog/blog-client.tsx:42-45 | the three `setDate` steps on one date give now − 7 days and now − 30 days: the +7 step restores `now` |
| BlogClient.FilteredPostsIsOneFilter | src/app/blog/blog-client.tsx:47-75 | the three chained filters equal one filter by the conjunction of the predicates |
| BlogClient.FilteredPostsIsSubsequence | src/app/blog/blog-client.tsx:47-75 | the result is an order-preserving subsequence of the posts |
| BlogClient.FilteredPostsMembers | src/app/blog/blog-client.tsx:47-75 | a post is listed iff it is one of the posts and passes search, category and date |
| BlogClient.InitialFiltersKeepAll | src/app/blog/blog-client.tsx:24-75 | with the initial controls ("", "All", "All time") the result is the posts themselves |
| BlogClient.NoWindowKeepsAllDates | src/app/blog/blog-client.tsx:63-75 | "All time" and any unknown label apply no date bound |
| BlogClient.LastSevenDaysWindow | src/app/blog/blog-client.tsx:68-70 | "Last 7 days" lists exactly the posts that pass search and category and are dated at or after now − 7 days |
| BlogClient.LastThirtyDaysWindow | src/app/blog/blog-client.tsx:71-73 | "Last 30 days" lists exactly the posts that pass search and category and are dated at or after now − 30 days |
| BlogClient.FuturePostsKept | src/app/blog/blog-client.tsx:63-75 | there is no upper bound: a post dated after now is never excluded by date |
| BlogClient.SevenDaysWithinThirty | src/app/blog/blog-client.tsx:43-73 | for the same now and controls, the 7-day list is a subsequence of the 30-day list |
| BlogPage.NotOlder | src/app/blog/page.tsx:24 | a post may stay before another exactly when the comparator `b - a` does not put the other first; when it does, the reverse comparison is negative |
| BlogPage.CompareNewestFirst | src/app/blog/page.tsx:24 | the comparator `b - a` is negative iff the first post is later, zero iff the dates are equal, positive iff it is earlier |
| BlogPage.PageFilteredPosts | src/app/blog/page.tsx:37-46 | the list is no longer than the posts, and every listed post is one of them and passes search and category |
| BlogPage.Insert | src/app/blog/page.tsx:24 | one insertion step of the sort, with its multiset as the input's plus the new post |
| BlogPage.SortNewestFirst | src/app/blog/page.tsx:24 | the sorted list is a permutation of the input |
| BlogPage.InsertKeepsNewestFirst | src/app/blog/page.tsx:24 | inserting into a newest-first list keeps it newest first |
| BlogPage.SortIsNewestFirst | src/app/blog/page.tsx:24 | the sorted list has non-increasing dates |
| BlogPage.InsertKeepsDateOrder | src/app/blog/page.tsx:24 | an insertion puts the new post behind every post of its own date |
| BlogPage.SortIsStable | src/app/blog/page.tsx:24 | posts of equal date keep their fetched relative order |
| BlogPage.InsertLandsAt | src/app/blog/page.tsx:24 | the insertion point is after the newer prefix and before the strictly older suffix |
| BlogPage.ShiftOlder | src/app/blog/page.tsx:24 | the array loop moves the strictly older posts one place right and returns the gap |
| BlogPage.InsertAt | src/app/blog/page.tsx:24 | one pass on the array performs `Insert` on its prefix and leaves the rest untouched |
| BlogPage.SortInPlace | src/app/blog/page.tsx:24 | the array ends as the stable newest-first sort of its old contents |
| BlogPage.PageFilterMembers | src/app/blog/page.tsx:37-46 | a post is listed iff it is one of the posts and passes search and category |
| BlogPage.PageFiltersCommute | src/app/blog/page.tsx:38-45 | swapping the two filters gives the same list |
| BlogPage.PageFilterKeepsNewestFirst | src/app/blog/page.tsx:37-46 | the listed posts are a subsequence of the sorted posts and are newest first too |
| BlogPage.PageFilterIsClientAllTime | src/app/blog/page.tsx:37-46 | the page filters as the client component does with the date control at "All time" |
| BlogPage.BlogPageState.constructor | src/app/blog/page.tsx:15-17 | before the fetch there are no posts, only the "All" category and an empty list |
| BlogPage.BlogPageState.FetchPosts | src/app/blog/page.tsx:21-25 | the kept posts are the fetched array sorted in place: a permutation of it, newest first |
| BlogPage.BlogPageState.SetSearchTerm | src/app/blog/page.tsx:61 | the search box replaces the term and nothing else |
| BlogPage.BlogPageState.SelectCategory | src/app/blog/page.tsx:72 | a category button replaces the category and nothing else |
| ScriptRunner.Captured | src/components/python-runner.tsx:55-57 | the console after the stdout messages: each adds at least its newline |
| ScriptRunner.Transcript | src/components/python-runner.tsx:53-64 | the console at the end of a run is the captured stdout, followed, on failure only, by exactly the traceback header and the message |
| ScriptRunner.CapturedAppend | src/components/python-runner.tsx:55-57 | output captured over two stretches of a run is the two captures concatenated |
| ScriptRunner.CapturedInOrder | src/components/python-runner.tsx:55-57 | every line appears, followed by a newline, in the order it was emitted |
| ScriptRunner.CapturedPrefix | src/components/python-runner.tsx:55-57 | the output so far is a prefix of the final output |
| ScriptRunner.CapturedEmpty | src/components/python-runner.tsx:55-57 | the capture is empty iff nothing was printed |
| ScriptRunner.FailureTranscript | src/components/python-runner.tsx:60-61 | a failed run shows its stdout, then "\nTraceback:\n" and the message |
| ScriptRunner.SuccessTranscript | src/components/python-runner.tsx:53-59 | a successful run shows exactly its stdout |
| ScriptRunner.PythonRunner.RunEnabled | src/components/python-runner.tsx:89 | the run button is enabled iff the interpreter is ready and no run is in progress, which implies it is loaded |
| ScriptRunner.PythonRunner.constructor | src/components/python-runner.tsx:15-19 | the initial code, an empty console, not ready, not running |
| ScriptRunner.PythonRunner.InitPyodide | src/components/python-runner.tsx:22-31 | a load is attempted only with the loader present and no interpreter yet; ready becomes true only after a successful load |
| ScriptRunner.PythonRunner.HandleFileUpload | src/components/python-runner.tsx:33-46 | a text read replaces the code and clears the console; no file or a non-text result changes nothing |
| ScriptRunner.PythonRunner.Edit | src/components/python-runner.tsx:103 | typing replaces the code only |
| ScriptRunner.PythonRunner.ClearOutput | src/components/python-runner.tsx:113 | the console becomes empty and the code is untouched |
| ScriptRunner.PythonRunner.StartRun | src/components/python-runner.tsx:49-51 | no interpreter: nothing changes; else running is set and the console cleared |
| ScriptRunner.PythonRunner.Stdout | src/components/python-runner.tsx:55-57 | a stdout message and a newline are appended |
| ScriptRunner.PythonRunner.Raise | src/components/python-runner.tsx:60-61 | the traceback header and the message are appended |
| ScriptRunner.PythonRunner.Finally | src/components/python-runner.tsx:62-64 | the run is over however it ended |
| ScriptRunner.PythonRunner.RunCode | src/components/python-runner.tsx:48-65 | without an interpreter nothing changes; otherwise the console ends as the run's transcript, running is false and the code is untouched |
| WorldMap.VisitedSet | src/components/world-map.tsx:40 | the set holds exactly the visited codes |
| WorldMap.DefaultFill | src/components/world-map.tsx:84-93 | a shape gets the primary fill iff its id is visited, and the muted fill otherwise |
| WorldMap.HoverFill | src/components/world-map.tsx:99-100 | the hover fill is the visited one iff the id is visited |
| WorldMap.EffectiveCategory | src/components/world-map.tsx:128 | never empty; an empty category becomes "Other" and any other category is kept |
| WorldMap.KnownCats | src/components/world-map.tsx:125-128 | the categories of the visited codes with data, in visiting order: at most one per code, none empty |
| WorldMap.NamesIn | src/components/world-map.tsx:125-130 | the names pushed into one category: at most one per code, and none for the empty category |
| WorldMap.Grouping | src/components/world-map.tsx:123-139 | the groups have pairwise distinct, non-empty categories, each the category of a visited code with data |
| WorldMap.CollectNew | src/components/world-map.tsx:129-130 | a category met for the first time opens a new last group holding the name |
| WorldMap.CollectExisting | src/components/world-map.tsx:130 | a category already met gets the name appended to its group |
| WorldMap.SkipStep | src/components/world-map.tsx:126-127 | a code without data leaves the dictionary as it was |
| WorldMap.VisitCode | src/components/world-map.tsx:126-131 | one step of the loop keeps the dictionary equal to the grouping of the codes seen so far |
| WorldMap.CollectGroups | src/components/world-map.tsx:124-132 | after the loop the keys are the categories in first-appearance order, each mapped to its names |
| WorldMap.Entries | src/components/world-map.tsx:133 | one group per key, in key order, each with that key's list |
| WorldMap.GroupVisited | src/components/world-map.tsx:123-139 | the component's loop computes exactly the grouping of the visited codes |
| WorldMap.MissingDataContributesNothing | src/components/world-map.tsx:126-127 | a visited code without data leaves the grouping unchanged |
| WorldMap.NamesInMembers | src/components/world-map.tsx:126-130 | a name is in a category's group iff a visited code with data has that name and category |
| WorldMap.CategoriesInFirstAppearanceOrder | src/components/world-map.tsx:129-133 | the groups are exactly the categories met, once each, in order of first appearance |
| WorldMap.InExactlyOneGroup | src/components/world-map.tsx:128-130 | a visited code with data puts its name in the group of its category, and no other group has that category |
| WorldMap.EmptyCategoryIsOther | src/components/world-map.tsx:128 | a country with an empty category is listed under "Other"; no group has an empty category |
| WorldMap.NamesInVisitingOrder | src/components/world-map.tsx:125-130 | the names in a group keep the order of the visited list |
| WorldMap.TotalIsVisitedWithData | src/components/world-map.tsx:124-132 | the number of names across all groups is the number of visited codes with data |
| WorldMap.SiteGrouping | src/components/world-map.tsx:16-28 | the site's data groups as Europe (United Kingdom, Germany), then Asia (Hong Kong) |
| WorldMap.MapHover.TooltipShown | src/components/world-map.tsx:115 | the tooltip is shown only while a name is held |
| WorldMap.MapHover.constructor | src/components/world-map.tsx:34 | nothing is hovered at first, so there is no tooltip |
| WorldMap.MapHover.MouseEnter | src/components/world-map.tsx:89 | entering a shape holds its name; the tooltip shows iff the name is non-empty |
| WorldMap.MapHover.MouseLeave | src/components/world-map.tsx:90 | leaving clears the name and hides the tooltip |
| ProjectCard.IndexAfter | src/components/project-card.tsx:51-57 | the index after k ticks from the first image is always below the image count |
| ProjectCard.Advance | src/components/project-card.tsx:57 | one tick gives an index below the image count |
| ProjectCard.IndexAfterTicks | src/components/project-card.tsx:51-57 | from 0, after k ticks the index is k mod count, so it is in range |
| ProjectCard.Slideshow.constructor | src/components/project-card.tsx:51 | the slideshow starts at the first image |
| ProjectCard.Slideshow.Tick | src/components/project-card.tsx:54-58 | with more than one image the index becomes (i + 1) mod count; otherwise no interval runs and nothing changes |
| ProjectCard.Slideshow.IndexInRange | src/components/project-card.tsx:51-58 | the index always names an image, and equals the tick count mod the image count |
| ProjectCard.AltText | src/components/project-card.tsx:89 | the title, " screenshot ", then the canonical decimal digits of the 1-based image number (no leading zero) |
| ProjectCard.AltTextDistinct | src/components/project-card.tsx:89 | different images of a card have different alternative texts |
| ProjectCard.SelectMedia | src/components/project-card.tsx:77-112 | non-empty images first, else a non-empty video, else a non-empty image, else nothing, each case iff its condition |
| ProjectCard.ImagesTakePriority | src/components/project-card.tsx:77-94 | with images, the video and the image make no difference |
| ProjectCard.PrintLinkText | src/components/project-card.tsx:121 | the text is present iff there is a link, and is never longer than the link |
| ProjectCard.PrintLinkOfWwwUrl | src/components/project-card.tsx:121 | "https://www.host/path" prints as "hostpath" |
| ProjectCard.PrintLinkOfPlainUrl | src/components/project-card.tsx:121 | "https://host/path" without "www." prints as "hostpath"; only the first slash goes |
| ProjectCard.PrintLinkRemovesInnerScheme | src/components/project-card.tsx:121 | the replacements are not anchored: "a/https://b" prints as "ab" |
| ProjectCard.CardTarget | src/components/project-card.tsx:71 | the card always links somewhere: the href when it is a non-empty string, else "#" |
| ProjectCard.Truthy | src/components/project-card.tsx:71-104 | an optional string is truthy iff it is present and not empty |
| ProjectCard.HasImages | src/components/project-card.tsx:77 | `images && images.length > 0`: iff the list is present and not empty |
| ProjectCard.RenderCard | src/components/project-card.tsx:64-159 | the tag row shows iff there are tags, the link row iff there are links, with the card's target, media and printed link |
| ProjectCard.SlideshowAlwaysShowsAnImage | src/components/project-card.tsx:51-89 | in every reachable slideshow state the index is valid and an image is shown |
| TechStack.AllTechItems | src/components/tech-stack.tsx:57 | the flattened list has as many items as the categories hold, a missing list counting as none |
| TechStack.ItemsOf | src/components/tech-stack.tsx:57 | `items \|\| []`: no item list counts as empty, and otherwise has the list's length |
| TechStack.Duplicated | src/components/tech-stack.tsx:86 | the marquee list has length 2n and element i + n equals element i |
| TechStack.GridView | src/components/tech-stack.tsx:146-154 | one section per category in declaration order, each with that category's items |
| TechStack.AllTechItemsLength | src/components/tech-stack.tsx:57 | the flattened list's length is the sum of the item counts, a missing list counting as none |
| TechStack.AllTechItemsMembers | src/components/tech-stack.tsx:57 | an item is in the flattened list iff it is an item of some category |
| TechStack.AllTechItemsAppend | src/components/tech-stack.tsx:57 | each category's items follow the earlier ones: declaration order is kept |
| TechStack.SiteItemCount | src/components/tech-stack.tsx:20-86 | the site's list has 13 items and the marquee 26 |
| TechStack.MarqueeKey | src/components/tech-stack.tsx:126 | the key is the item's name, a dash, then the index's decimal digits |
| TechStack.MarqueeKeyInjective | src/components/tech-stack.tsx:126 | equal keys "name-index" imply equal indices, whatever the names |
| TechStack.PositionKeysDiffer | src/components/tech-stack.tsx:125-126 | entries at different positions get different keys, even when they hold the same item |
| TechStack.MarqueeKeys | src/components/tech-stack.tsx:125-126 | one key per entry, pairwise distinct, so the doubled marquee list has distinct keys although every item appears twice |
| TechStack.GridMatchesFlattened | src/components/tech-stack.tsx:146-154 | reading the grid's sections in order gives exactly the flattened list |
| TechStack.TechStackView.Rendered | src/components/tech-stack.tsx:107-154 | the grid is shown iff showAll; the marquee shows the doubled list with its keys |
| TechStack.TechStackView.constructor | src/components/tech-stack.tsx:83 | the section starts on the marquee |
| TechStack.TechStackView.ShowGrid | src/components/tech-stack.tsx:135 | the grid button shows the grid; pressing it again changes nothing |
| TechStack.TechStackView.ShowMarquee | src/components/tech-stack.tsx:164 | the back button shows the marquee; pressing it again changes nothing |

## Left out

- The Pyodide interpreter is not modelled: the CDN script, `loadPyodide`, `runPythonAsync` and `setStdout`. A load is a boolean outcome, and a run is its stdout lines and an outcome.
- ScriptRunner.PythonRunner.RunCode: it covers one run with no other event in between. Edits, clears or uploads during a run are only the separate handler methods. React's batching of the functional `setOutput` updates is not modelled.
- The `console.error` logging in the catch of `initPyodide` is not modelled; a failed load only leaves the state unchanged.
- The asynchronous `FileReader` is not modelled: only the completed read is an input.
- `getBlogPosts` and `formatDate` are not part of this model. The fetched posts are the method's argument.
- Date strings are not parsed. A post's date is an integer timestamp, invalid dates (NaN comparisons) are not represented, and `setDate` is a shift by whole 24-hour days, ignoring calendar and daylight-saving effects.
- `toLowerCase` is ASCII lower case. Unicode case mapping is not modelled.
- BlogPage.SortInPlace: JavaScript's `sort` is stable but its algorithm is unspecified. The model is a stable insertion sort, which is the only stable newest-first order. The comparator is modelled on integer timestamps, so no NaN results.
- BlogPage.BlogPageState: the blog client's own handlers (search box, category and date buttons) are not a class. `BlogClient.FilteredPosts` takes the three controls as a value instead.
- WorldMap.GroupVisited: `Object.entries` lists integer-like keys first, in numeric order. The model keeps plain insertion order, which is right for non-numeric categories such as the site's.
- `countryData[code]`, `categories[category]` and similar lookups are modelled as map lookups. Keys inherited from `Object.prototype` (such as "constructor") are not represented.
- ProjectCard.Slideshow: the effect does not reset the index when `images` changes. The model fixes the image count for the card's lifetime.
- The 5-second interval, its cleanup, and the animation and rendering of every widget are not modelled. So are the map's projection, the loading placeholder shown before `isClient` is set, and the marquee's duration.
- ProjectCard.CardLink: a link badge's icon is not modelled.
- React keys of the grid view (`category.category`, `tech.name`) are not checked for uniqueness. Only the marquee keys are.
- The console's placeholder text when the output is empty is rendering only.
