/**
 * The tech-stack section: the technologies grouped by category, shown
 * either as an endless marquee of all items (the flattened list twice over,
 * so that scrolling by half its width loops seamlessly) or as a grid with one
 * section per category. A boolean switches between the two views.
 */
module TechStack {
  import opened Wrappers
  import opened Seqs
  import opened Text

  datatype TechItem = TechItem(name: string, logo: string)

  /** A category and its items; a category without an item list is `None`. */
  datatype TechCategory = TechCategory(category: string, items: Option<seq<TechItem>>)

  /** One section of the grid view: the category heading and its items. */
  datatype GridSection = GridSection(heading: string, items: seq<TechItem>)

  /** What the section shows: the marquee with its item keys, or the grid. */
  datatype View =
    | Marquee(items: seq<TechItem>, keys: seq<string>)
    | Grid(sections: seq<GridSection>)

  const LogoBase: string := "https://cdn.jsdelivr.net/gh/devicons/devicon/icons/"

  const TechCategories: seq<TechCategory> := [
    TechCategory("Cloud Platforms", Some([
      TechItem("Azure", LogoBase + "azure/azure-original.svg"),
      TechItem("AWS", LogoBase + "amazonwebservices/amazonwebservices-original.svg")])),
    TechCategory("Infrastructure as Code & Automation", Some([
      TechItem("Terraform", LogoBase + "terraform/terraform-original.svg"),
      TechItem("Bicep", LogoBase + "bicep/bicep-original.svg"),
      TechItem("CloudFormation", LogoBase + "aws/aws-original.svg"),
      TechItem("GitHub Actions", LogoBase + "githubactions/githubactions-original.svg")])),
    TechCategory("Containerization & Orchestration", Some([
      TechItem("Docker", LogoBase + "docker/docker-original.svg"),
      TechItem("Kubernetes", LogoBase + "kubernetes/kubernetes-plain.svg")])),
    TechCategory("Languages & Scripting", Some([
      TechItem("TypeScript", LogoBase + "typescript/typescript-original.svg"),
      TechItem("JavaScript", LogoBase + "javascript/javascript-original.svg"),
      TechItem("Python", LogoBase + "python/python-original.svg"),
      TechItem("Bash", LogoBase + "bash/bash-original.svg"),
      TechItem("PowerShell", LogoBase + "powershell/powershell-original.svg")]))
  ]

  /** `category.items || []`. */
  function ItemsOf(c: TechCategory): (r: seq<TechItem>)
    ensures c.items.None? ==> r == []
    ensures |r| == if c.items.Some? then |c.items.value| else 0
  {
    if c.items.Some? then c.items.value else []
  }

  /** The items of all categories, category by category, in declaration order. */
  function AllTechItems(cats: seq<TechCategory>): (r: seq<TechItem>)
    ensures |r| == ItemCount(cats)
  {
    AllTechItemsLength(cats);
    FlatMap(cats, ItemsOf)
  }

  /** The sum of the categories' item counts, a missing list counting as none. */
  function ItemCount(cats: seq<TechCategory>): nat
    decreases |cats|
  {
    if cats == [] then 0 else |ItemsOf(cats[0])| + ItemCount(cats[1..])
  }

  /** `[...items, ...items]`: the marquee list, whose second half repeats the first. */
  function Duplicated(items: seq<TechItem>): (r: seq<TechItem>)
    ensures |r| == 2 * |items|
    ensures forall i :: 0 <= i < |items| ==> r[i] == items[i] && r[i + |items|] == items[i]
  {
    items + items
  }

  /** The React key of the marquee entry at `index`: the name, a dash and the index. */
  function MarqueeKey(item: TechItem, index: nat): (r: string)
    ensures |r| > |item.name| && r[..|item.name|] == item.name && r[|item.name|] == '-'
    ensures r[|item.name| + 1..] == NatToString(index)
  {
    assert (item.name + "-" + NatToString(index))[..|item.name|] == item.name;
    assert (item.name + "-" + NatToString(index))[|item.name| + 1..] == NatToString(index);
    item.name + "-" + NatToString(index)
  }

  /** The keys of the marquee entries: pairwise distinct, whatever the items. */
  function MarqueeKeys(items: seq<TechItem>): (r: seq<string>)
    ensures |r| == |items|
    ensures forall i :: 0 <= i < |items| ==> r[i] == MarqueeKey(items[i], i)
    ensures NoDuplicates(r)
  {
    PositionKeysDiffer(items);
    seq(|items|, i requires 0 <= i < |items| => MarqueeKey(items[i], i))
  }

  /** The grid: one section per category, in declaration order, each with its own items. */
  function GridView(cats: seq<TechCategory>): (r: seq<GridSection>)
    ensures |r| == |cats|
    ensures forall i :: 0 <= i < |cats| ==> r[i] == GridSection(cats[i].category, ItemsOf(cats[i]))
  {
    seq(|cats|, i requires 0 <= i < |cats| => GridSection(cats[i].category, ItemsOf(cats[i])))
  }

  function SectionItems(s: GridSection): seq<TechItem>
  {
    s.items
  }

  // ----- The flattened list -----

  /** Flattening keeps every item: the length is the sum of the item counts. */
  lemma {:induction false} AllTechItemsLength(cats: seq<TechCategory>)
    ensures |FlatMap(cats, ItemsOf)| == ItemCount(cats)
    decreases |cats|
  {
    if cats != [] {
      AllTechItemsLength(cats[1..]);
    }
  }

  /** An item is in the flattened list iff it is an item of one of the categories. */
  lemma AllTechItemsMembers(cats: seq<TechCategory>, item: TechItem)
    ensures item in AllTechItems(cats) <==> exists c :: c in cats && item in ItemsOf(c)
  {
    FlatMapMembers(cats, ItemsOf, item);
  }

  /** Appending a category appends its items: the categories' order is kept. */
  lemma AllTechItemsAppend(cats: seq<TechCategory>, c: TechCategory)
    ensures AllTechItems(cats + [c]) == AllTechItems(cats) + ItemsOf(c)
  {
    FlatMapAppend(cats, [c], ItemsOf);
    assert FlatMap([c], ItemsOf) == ItemsOf(c) + FlatMap([c][1..], ItemsOf);
    assert [c][1..] == [];
  }

  /** The site's list has 2 + 4 + 2 + 5 = 13 items, so the marquee has 26. */
  lemma SiteItemCount()
    ensures |AllTechItems(TechCategories)| == 13
    ensures |Duplicated(AllTechItems(TechCategories))| == 26
  {
    var cats := TechCategories;
    var c1 := cats[1..];
    var c2 := c1[1..];
    var c3 := c2[1..];
    assert c3[1..] == [];
    assert |ItemsOf(c3[0])| == 5 && ItemCount(c3) == 5;
    assert |ItemsOf(c2[0])| == 2 && ItemCount(c2) == 7;
    assert |ItemsOf(c1[0])| == 4 && ItemCount(c1) == 11;
    assert |ItemsOf(cats[0])| == 2 && ItemCount(cats) == 13;
  }

  // ----- The marquee -----

  /** Keys of different positions differ, whatever the names: the index after the last dash decides. */
  lemma MarqueeKeyInjective(a: TechItem, i: nat, b: TechItem, j: nat)
    requires MarqueeKey(a, i) == MarqueeKey(b, j)
    ensures i == j
  {
    var t1, t2 := NatToString(i), NatToString(j);
    assert forall k :: 0 <= k < |t1| ==> t1[k] != '-' by {
      forall k | 0 <= k < |t1| ensures t1[k] != '-' {
        assert IsDigit(t1[k]);
      }
    }
    assert forall k :: 0 <= k < |t2| ==> t2[k] != '-' by {
      forall k | 0 <= k < |t2| ensures t2[k] != '-' {
        assert IsDigit(t2[k]);
      }
    }
    assert a.name + ['-'] + t1 == b.name + ['-'] + t2;
    LastSeparatorSplit(a.name, t1, b.name, t2, '-');
    NatToStringInjective(i, j);
  }

  /** Entries at different positions get different keys, even when they hold the same item. */
  lemma PositionKeysDiffer(items: seq<TechItem>)
    ensures forall i, j :: 0 <= i < j < |items| ==> MarqueeKey(items[i], i) != MarqueeKey(items[j], j)
  {
    forall i, j | 0 <= i < j < |items| ensures MarqueeKey(items[i], i) != MarqueeKey(items[j], j) {
      if MarqueeKey(items[i], i) == MarqueeKey(items[j], j) {
        MarqueeKeyInjective(items[i], i, items[j], j);
      }
    }
  }

  // ----- The grid -----

  /** Reading the grid's sections one after another gives exactly the marquee's first half. */
  lemma {:induction false} GridMatchesFlattened(cats: seq<TechCategory>)
    ensures FlatMap(GridView(cats), SectionItems) == AllTechItems(cats)
    decreases |cats|
  {
    if cats != [] {
      GridMatchesFlattened(cats[1..]);
      assert GridView(cats)[1..] == GridView(cats[1..]);
    }
  }

  // ----- The view switch -----

  /** Which of the two views is shown. */
  class TechStackView {
    var showAll: bool

    /** The section as rendered for the site's categories. */
    function Rendered(): (r: View)
      reads this
      ensures showAll <==> r.Grid?
      ensures r.Marquee? ==> r.items == Duplicated(AllTechItems(TechCategories)) && r.keys == MarqueeKeys(r.items)
      ensures r.Grid? ==> r.sections == GridView(TechCategories)
    {
      if showAll then Grid(GridView(TechCategories))
      else
        var items := Duplicated(AllTechItems(TechCategories));
        Marquee(items, MarqueeKeys(items))
    }

    /** The section starts on the marquee. */
    constructor ()
      ensures !showAll && Rendered().Marquee?
    {
      showAll := false;
    }

    /** The grid button; pressing it again changes nothing. */
    method ShowGrid()
      modifies this
      ensures showAll && Rendered().Grid?
    {
      showAll := true;
    }

    /** The back button; pressing it again changes nothing. */
    method ShowMarquee()
      modifies this
      ensures !showAll && Rendered().Marquee?
    {
      showAll := false;
    }
  }

}
