/**
 * The travel map: which countries are drawn as visited, the hover tooltip,
 * and the list under the map that groups the names of the visited countries
 * by category (continent).
 */
module WorldMap {
  import opened Wrappers
  import opened Seqs

  /** The data kept for a country code: its display name and its category. */
  datatype CountryInfo = CountryInfo(name: string, category: string)

  /** One entry of the list under the map: a category and the names grouped under it. */
  datatype Group = Group(category: string, countries: seq<string>)

  /** The visited codes (ISO 3166-1 alpha-3), in the order they are listed. */
  const VisitedCountries: seq<string> := ["GBR", "DEU", "HKG"]

  const CountryData: map<string, CountryInfo> := map[
    "GBR" := CountryInfo("United Kingdom", "Europe"),
    "DEU" := CountryInfo("Germany", "Europe"),
    "HKG" := CountryInfo("Hong Kong", "Asia")
  ]

  /** The category given to a country whose category is empty. */
  const OtherCategory: string := "Other"

  const VisitedFill: string := "hsl(var(--primary))"
  const UnvisitedFill: string := "hsl(var(--muted))"
  const VisitedHoverFill: string := "hsl(var(--primary), 0.8)"
  const UnvisitedHoverFill: string := "hsl(var(--muted-foreground))"

  // ----- Visited countries on the map -----

  /** `new Set(visitedCountries)`. */
  function VisitedSet(visited: seq<string>): (r: set<string>)
    ensures forall id :: id in r <==> id in visited
  {
    set id | id in visited
  }

  /** The resting fill of a country shape: the primary colour iff its id is visited. */
  function DefaultFill(visited: seq<string>, id: string): (r: string)
    ensures r == VisitedFill <==> id in visited
    ensures r == UnvisitedFill <==> id !in visited
  {
    if id in VisitedSet(visited) then VisitedFill else UnvisitedFill
  }

  /** The fill while the pointer is over a country shape. */
  function HoverFill(visited: seq<string>, id: string): (r: string)
    ensures r == VisitedHoverFill <==> id in visited
    ensures r == UnvisitedHoverFill <==> id !in visited
  {
    if id in VisitedSet(visited) then VisitedHoverFill else UnvisitedHoverFill
  }

  // ----- Grouping by category -----

  /** `data.category || "Other"`. */
  function EffectiveCategory(info: CountryInfo): (r: string)
    ensures r != ""
    ensures info.category == "" ==> r == OtherCategory
    ensures info.category != "" ==> r == info.category
  {
    if info.category == "" then OtherCategory else info.category
  }

  /** Whether a code has an entry in the country data, as a predicate for `Filter`. */
  function HasData(data: map<string, CountryInfo>): string -> bool
  {
    code => code in data
  }

  /** The effective category of each visited code that has data, in visiting order. */
  function KnownCats(visited: seq<string>, data: map<string, CountryInfo>): (r: seq<string>)
    ensures |r| <= |visited|
    ensures forall c :: c in r ==> c != ""
    decreases |visited|
  {
    if visited == [] then []
    else
      var init, last := visited[..|visited| - 1], visited[|visited| - 1];
      if last in data then KnownCats(init, data) + [EffectiveCategory(data[last])] else KnownCats(init, data)
  }

  /** The names of the visited codes that have data, in visiting order. */
  function KnownNames(visited: seq<string>, data: map<string, CountryInfo>): seq<string>
    decreases |visited|
  {
    if visited == [] then []
    else
      var init, last := visited[..|visited| - 1], visited[|visited| - 1];
      if last in data then KnownNames(init, data) + [data[last].name] else KnownNames(init, data)
  }

  /** The names of the visited codes that have data and effective category `category`, in visiting order. */
  function NamesIn(visited: seq<string>, data: map<string, CountryInfo>, category: string): (r: seq<string>)
    ensures |r| <= |visited|
    ensures category == "" ==> r == []
    decreases |visited|
  {
    if visited == [] then []
    else
      var init, last := visited[..|visited| - 1], visited[|visited| - 1];
      if last in data && EffectiveCategory(data[last]) == category then NamesIn(init, data, category) + [data[last].name]
      else NamesIn(init, data, category)
  }

  /** One group per key, holding the names of that category. */
  function GroupsFor(visited: seq<string>, data: map<string, CountryInfo>, keys: seq<string>): seq<Group>
  {
    seq(|keys|, i requires 0 <= i < |keys| => Group(keys[i], NamesIn(visited, data, keys[i])))
  }

  /** The list under the map: one group per category, categories in order of first appearance. */
  function Grouping(visited: seq<string>, data: map<string, CountryInfo>): (r: seq<Group>)
    ensures forall i, j :: 0 <= i < j < |r| ==> r[i].category != r[j].category
    ensures forall i :: 0 <= i < |r| ==> r[i].category != "" && r[i].category in KnownCats(visited, data)
  {
    var keys := Dedup(KnownCats(visited, data));
    assert forall i :: 0 <= i < |keys| ==> keys[i] in keys;
    GroupsFor(visited, data, keys)
  }

  /** The number of names across a list of groups. */
  function TotalNames(groups: seq<Group>): nat
    decreases |groups|
  {
    if groups == [] then 0 else TotalNames(groups[..|groups| - 1]) + |groups[|groups| - 1].countries|
  }

  /**
   * What the dictionary holds after the codes `seen`: one key per category,
   * in order of first appearance, each mapped to the names of that category.
   */
  ghost predicate Collected(seen: seq<string>, data: map<string, CountryInfo>,
                      order: seq<string>, members: map<string, seq<string>>)
  {
    && order == Dedup(KnownCats(seen, data))
    && (forall k :: k in members <==> k in order)
    && (forall k :: k in members ==> members[k] == NamesIn(seen, data, k))
  }

  /** A code whose category is met for the first time opens a new last group holding its name. */
  lemma CollectNew(seen: seq<string>, data: map<string, CountryInfo>, code: string,
                   order: seq<string>, members: map<string, seq<string>>)
    requires Collected(seen, data, order, members)
    requires code in data && EffectiveCategory(data[code]) !in members
    ensures Collected(seen + [code], data, order + [EffectiveCategory(data[code])],
                      members[EffectiveCategory(data[code]) := [data[code].name]])
  {
    var c, name := EffectiveCategory(data[code]), data[code].name;
    var known := KnownCats(seen, data);
    KnownCatsAppend(seen, data, code);
    assert c !in known;
    DedupAppend(known, c);
    NamesInUnknown(seen, data, c);
    NamesInAppend(seen, data, code, c);
    var members' := members[c := [name]];
    forall k | k in members' ensures members'[k] == NamesIn(seen + [code], data, k) {
      NamesInAppend(seen, data, code, k);
    }
  }

  /** A code whose category already has a group adds its name at the end of that group. */
  lemma CollectExisting(seen: seq<string>, data: map<string, CountryInfo>, code: string,
                        order: seq<string>, members: map<string, seq<string>>)
    requires Collected(seen, data, order, members)
    requires code in data && EffectiveCategory(data[code]) in members
    ensures var c := EffectiveCategory(data[code]);
      Collected(seen + [code], data, order, members[c := members[c] + [data[code].name]])
  {
    var c, name := EffectiveCategory(data[code]), data[code].name;
    var known := KnownCats(seen, data);
    KnownCatsAppend(seen, data, code);
    assert c in known;
    DedupAppend(known, c);
    var members' := members[c := members[c] + [name]];
    forall k | k in members' ensures members'[k] == NamesIn(seen + [code], data, k) {
      NamesInAppend(seen, data, code, k);
    }
  }

  /** A code without data leaves the dictionary as it was. */
  lemma SkipStep(seen: seq<string>, data: map<string, CountryInfo>, code: string,
                 order: seq<string>, members: map<string, seq<string>>)
    requires Collected(seen, data, order, members)
    requires code !in data
    ensures Collected(seen + [code], data, order, members)
  {
    KnownCatsAppend(seen, data, code);
    forall k | k in members ensures members[k] == NamesIn(seen + [code], data, k) {
      NamesInAppend(seen, data, code, k);
    }
  }

  /**
   * The body of the `forEach`: a code without data is skipped; otherwise the
   * category's list is created (and its key recorded) the first time the
   * category is met, then the name is pushed.
   */
  method VisitCode(ghost seen: seq<string>, data: map<string, CountryInfo>, code: string,
                   order: seq<string>, members: map<string, seq<string>>)
    returns (order': seq<string>, members': map<string, seq<string>>)
    requires Collected(seen, data, order, members)
    ensures Collected(seen + [code], data, order', members')
  {
    order', members' := order, members;
    if code in data {
      var info := data[code];
      var category := EffectiveCategory(info);
      if category !in members' {
        CollectNew(seen, data, code, order, members);
        members' := members'[category := []];
        order' := order' + [category];
      } else {
        CollectExisting(seen, data, code, order, members);
      }
      members' := members'[category := members'[category] + [info.name]];
    } else {
      SkipStep(seen, data, code, order, members);
    }
  }

  /** The `forEach` over the visited codes, in order. */
  method CollectGroups(visited: seq<string>, data: map<string, CountryInfo>)
    returns (order: seq<string>, members: map<string, seq<string>>)
    ensures Collected(visited, data, order, members)
  {
    members := map[];
    order := [];
    var i := 0;
    while i < |visited|
      invariant 0 <= i <= |visited|
      invariant Collected(visited[..i], data, order, members)
    {
      TakeNext(visited, i);
      order, members := VisitCode(visited[..i], data, visited[i], order, members);
      i := i + 1;
    }
    TakeAll(visited);
  }

  /** `Object.entries(categories)`: one group per key, in key insertion order. */
  method Entries(order: seq<string>, members: map<string, seq<string>>) returns (groups: seq<Group>)
    requires forall k :: k in order ==> k in members
    ensures |groups| == |order|
    ensures forall t :: 0 <= t < |order| ==> groups[t] == Group(order[t], members[order[t]])
  {
    groups := [];
    var j := 0;
    while j < |order|
      invariant 0 <= j <= |order|
      invariant |groups| == j
      invariant forall t :: 0 <= t < j ==> groups[t] == Group(order[t], members[order[t]])
    {
      groups := groups + [Group(order[j], members[order[j]])];
      j := j + 1;
    }
  }

  /** The list under the map, built as the component builds it. */
  method GroupVisited(visited: seq<string>, data: map<string, CountryInfo>) returns (groups: seq<Group>)
    ensures groups == Grouping(visited, data)
  {
    var order, members := CollectGroups(visited, data);
    groups := Entries(order, members);
  }

  /** A category that no visited code has gets no names. */
  lemma {:induction false} NamesInUnknown(visited: seq<string>, data: map<string, CountryInfo>, category: string)
    requires category !in KnownCats(visited, data)
    ensures NamesIn(visited, data, category) == []
    decreases |visited|
  {
    if visited != [] {
      NamesInUnknown(visited[..|visited| - 1], data, category);
    }
  }

  /** A code appended to the visited list contributes only to the end of each list. */
  lemma KnownCatsAppend(visited: seq<string>, data: map<string, CountryInfo>, code: string)
    ensures code in data ==> KnownCats(visited + [code], data) == KnownCats(visited, data) + [EffectiveCategory(data[code])]
    ensures code !in data ==> KnownCats(visited + [code], data) == KnownCats(visited, data)
  {
    InitOfSnoc(visited, code);
  }

  lemma NamesInAppend(visited: seq<string>, data: map<string, CountryInfo>, code: string, category: string)
    ensures code in data && EffectiveCategory(data[code]) == category
        ==> NamesIn(visited + [code], data, category) == NamesIn(visited, data, category) + [data[code].name]
    ensures !(code in data && EffectiveCategory(data[code]) == category)
        ==> NamesIn(visited + [code], data, category) == NamesIn(visited, data, category)
  {
    InitOfSnoc(visited, code);
  }

  /** A visited code without data contributes nothing to the grouping. */
  lemma MissingDataContributesNothing(visited: seq<string>, data: map<string, CountryInfo>, code: string)
    requires code !in data
    ensures Grouping(visited + [code], data) == Grouping(visited, data)
  {
    KnownCatsAppend(visited, data, code);
    var keys := Dedup(KnownCats(visited, data));
    var g1, g2 := Grouping(visited + [code], data), Grouping(visited, data);
    assert |g1| == |keys| == |g2|;
    forall i | 0 <= i < |keys| ensures g1[i] == g2[i] {
      NamesInAppend(visited, data, code, keys[i]);
    }
  }

  /** A name is in a category's group iff some visited code with that name and category has data. */
  lemma {:induction false} NamesInMembers(visited: seq<string>, data: map<string, CountryInfo>, category: string, name: string)
    ensures name in NamesIn(visited, data, category)
        <==> exists code :: code in visited && code in data && data[code].name == name && EffectiveCategory(data[code]) == category
    decreases |visited|
  {
    if visited != [] {
      var init, last := visited[..|visited| - 1], visited[|visited| - 1];
      assert visited == init + [last];
      NamesInMembers(init, data, category, name);
    }
  }

  /** The categories are listed once each, in order of first appearance among the visited codes. */
  lemma CategoriesInFirstAppearanceOrder(visited: seq<string>, data: map<string, CountryInfo>)
    ensures var groups, cats := Grouping(visited, data), KnownCats(visited, data);
      && (forall i :: 0 <= i < |groups| ==> groups[i].category in cats)
      && (forall c :: c in cats ==> exists i :: 0 <= i < |groups| && groups[i].category == c)
      && (forall i, j :: 0 <= i < j < |groups| ==> FirstIndex(cats, groups[i].category) < FirstIndex(cats, groups[j].category))
  {
    var groups, cats := Grouping(visited, data), KnownCats(visited, data);
    var keys := Dedup(cats);
    DedupFirstAppearance(cats);
    forall c | c in cats ensures exists i :: 0 <= i < |groups| && groups[i].category == c {
      var i :| 0 <= i < |keys| && keys[i] == c;
      assert groups[i].category == c;
    }
  }

  /**
   * Each visited code with data contributes its name to the group of its
   * effective category, and that group is the only one with that category.
   */
  lemma InExactlyOneGroup(visited: seq<string>, data: map<string, CountryInfo>, code: string)
    requires code in visited && code in data
    ensures var groups, c := Grouping(visited, data), EffectiveCategory(data[code]);
      exists i :: 0 <= i < |groups| && groups[i].category == c && data[code].name in groups[i].countries
        && forall j :: 0 <= j < |groups| && j != i ==> groups[j].category != c
  {
    var groups, c := Grouping(visited, data), EffectiveCategory(data[code]);
    var keys := Dedup(KnownCats(visited, data));
    KnownCatsHasCategory(visited, data, code);
    var i :| 0 <= i < |keys| && keys[i] == c;
    NamesInMembers(visited, data, c, data[code].name);
    assert data[code].name in groups[i].countries;
    assert forall j :: 0 <= j < |groups| && j != i ==> groups[j].category != c;
  }

  lemma {:induction false} KnownCatsHasCategory(visited: seq<string>, data: map<string, CountryInfo>, code: string)
    requires code in visited && code in data
    ensures EffectiveCategory(data[code]) in KnownCats(visited, data)
    decreases |visited|
  {
    var init, last := visited[..|visited| - 1], visited[|visited| - 1];
    assert visited == init + [last];
    if last != code {
      KnownCatsHasCategory(init, data, code);
    }
  }

  /** A country with an empty category is listed under "Other"; no group has an empty category. */
  lemma EmptyCategoryIsOther(visited: seq<string>, data: map<string, CountryInfo>, code: string)
    requires code in visited && code in data && data[code].category == ""
    ensures var groups := Grouping(visited, data);
      exists i :: 0 <= i < |groups| && groups[i].category == OtherCategory && data[code].name in groups[i].countries
    ensures forall g :: g in Grouping(visited, data) ==> g.category != ""
  {
    InExactlyOneGroup(visited, data, code);
    var groups, keys := Grouping(visited, data), Dedup(KnownCats(visited, data));
    forall g | g in groups ensures g.category != "" {
      var i :| 0 <= i < |groups| && groups[i] == g;
      assert g.category == keys[i] && keys[i] in keys;
    }
  }

  /** Names within a group keep the order of the visited list. */
  lemma {:induction false} NamesInVisitingOrder(visited: seq<string>, data: map<string, CountryInfo>, category: string)
    ensures IsSubsequence(NamesIn(visited, data, category), KnownNames(visited, data))
    decreases |visited|
  {
    if visited == [] {
      SubsequenceReflexive<string>([]);
    } else {
      var init, last := visited[..|visited| - 1], visited[|visited| - 1];
      NamesInVisitingOrder(init, data, category);
      var tail := if last in data then [data[last].name] else [];
      if last in data && EffectiveCategory(data[last]) == category {
        SubsequenceAppend(NamesIn(init, data, category), KnownNames(init, data), tail, tail);
      } else {
        SubsequenceAppend(NamesIn(init, data, category), KnownNames(init, data), [], tail);
        assert NamesIn(init, data, category) + [] == NamesIn(init, data, category);
        if tail != [] {
          assert IsSubsequence([], tail);
        }
      }
    }
  }

  // ----- Counting -----

  lemma {:induction false} NamesInCount(visited: seq<string>, data: map<string, CountryInfo>, category: string)
    ensures |NamesIn(visited, data, category)| == multiset(KnownCats(visited, data))[category]
    decreases |visited|
  {
    if visited != [] {
      NamesInCount(visited[..|visited| - 1], data, category);
    }
  }

  lemma {:induction false} TotalNamesOfGroups(visited: seq<string>, data: map<string, CountryInfo>, keys: seq<string>)
    ensures TotalNames(GroupsFor(visited, data, keys)) == SumCounts(keys, KnownCats(visited, data))
    decreases |keys|
  {
    if keys != [] {
      var init := keys[..|keys| - 1];
      var groups := GroupsFor(visited, data, keys);
      assert groups[..|groups| - 1] == GroupsFor(visited, data, init);
      TotalNamesOfGroups(visited, data, init);
      NamesInCount(visited, data, keys[|keys| - 1]);
    }
  }

  lemma {:induction false} KnownCatsLength(visited: seq<string>, data: map<string, CountryInfo>)
    ensures |KnownCats(visited, data)| == |Filter(visited, HasData(data))|
    decreases |visited|
  {
    if visited != [] {
      var init, last := visited[..|visited| - 1], visited[|visited| - 1];
      assert visited == init + [last];
      KnownCatsLength(init, data);
      FilterAppend(init, [last], HasData(data));
    }
  }

  /** The groups hold as many names in all as there are visited codes with data. */
  lemma TotalIsVisitedWithData(visited: seq<string>, data: map<string, CountryInfo>)
    ensures TotalNames(Grouping(visited, data)) == |Filter(visited, HasData(data))|
  {
    var cats := KnownCats(visited, data);
    TotalNamesOfGroups(visited, data, Dedup(cats));
    SumCountsOverDedup(cats);
    KnownCatsLength(visited, data);
  }

  lemma SiteCategories()
    ensures KnownCats(VisitedCountries, CountryData) == ["Europe", "Europe", "Asia"]
  {
    var v, d := VisitedCountries, CountryData;
    assert v[..1] == ["GBR"] && v[..1][..0] == [];
    assert v[..2] == ["GBR", "DEU"] && v[..2][..1] == ["GBR"];
    assert KnownCats(v[..1], d) == ["Europe"];
    assert KnownCats(v[..2], d) == ["Europe", "Europe"];
  }

  lemma SiteNames()
    ensures NamesIn(VisitedCountries, CountryData, "Europe") == ["United Kingdom", "Germany"]
    ensures NamesIn(VisitedCountries, CountryData, "Asia") == ["Hong Kong"]
  {
    var v, d := VisitedCountries, CountryData;
    assert v[..1] == ["GBR"] && v[..1][..0] == [];
    assert v[..2] == ["GBR", "DEU"] && v[..2][..1] == ["GBR"];
    assert NamesIn(v[..1], d, "Europe") == ["United Kingdom"];
    assert NamesIn(v[..2], d, "Europe") == ["United Kingdom", "Germany"];
    assert NamesIn(v[..1], d, "Asia") == [];
    assert NamesIn(v[..2], d, "Asia") == [];
  }

  /** The site's own data: Europe (United Kingdom, Germany), then Asia (Hong Kong). */
  lemma SiteGrouping()
    ensures Grouping(VisitedCountries, CountryData)
         == [Group("Europe", ["United Kingdom", "Germany"]), Group("Asia", ["Hong Kong"])]
  {
    SiteCategories();
    SiteNames();
    SiteDedup();
    var g := Grouping(VisitedCountries, CountryData);
    assert |g| == 2;
    assert g[0] == Group("Europe", ["United Kingdom", "Germany"]);
    assert g[1] == Group("Asia", ["Hong Kong"]);
  }

  lemma SiteDedup()
    ensures Dedup(["Europe", "Europe", "Asia"]) == ["Europe", "Asia"]
  {
    var e, a := "Europe", "Asia";
    assert e != a by {
      assert |e| != |a|;
    }
    DedupOfDistinctPair(e, a);
  }

  // ----- Hover tooltip -----

  /** The name under the pointer, if any. */
  class MapHover {
    var hoveredCountry: Option<string>

    /** The tooltip is drawn when a name is held and it is not the empty string. */
    predicate TooltipShown()
      reads this
      ensures TooltipShown() ==> hoveredCountry.Some?
    {
      hoveredCountry.Some? && hoveredCountry.value != ""
    }

    constructor ()
      ensures hoveredCountry == None && !TooltipShown()
    {
      hoveredCountry := None;
    }

    method MouseEnter(name: string)
      modifies this
      ensures hoveredCountry == Some(name)
      ensures TooltipShown() <==> name != ""
    {
      hoveredCountry := Some(name);
    }

    method MouseLeave()
      modifies this
      ensures hoveredCountry == None && !TooltipShown()
    {
      hoveredCountry := None;
    }
  }

}
