/**
 * A project card: a link wrapping the card's media (an automatic slideshow,
 * a video or a single image), the printed form of the project link, and rows
 * of tag and link badges.
 */
module ProjectCard {
  import opened Wrappers
  import opened Text

  /** A link badge of the footer: its kind (shown as text) and its target; the icon is not modelled. */
  datatype CardLink = CardLink(kind: string, href: string)

  /** The card's properties; an absent optional property is `None`. */
  datatype CardProps = CardProps(
    title: string,
    href: Option<string>,
    description: string,
    dates: string,
    tags: seq<string>,
    link: Option<string>,
    image: Option<string>,
    video: Option<string>,
    images: Option<seq<string>>,
    links: Option<seq<CardLink>>)

  /** What the media area shows. */
  datatype Media =
    | SlideshowImage(src: string, alt: string)
    | VideoMedia(src: string)
    | SingleImage(src: string, alt: string)
    | NoMedia

  /** What the card renders, apart from styling. */
  datatype CardView = CardView(
    target: string,
    media: Media,
    printLink: Option<string>,
    tagRow: Option<seq<string>>,
    linkRow: Option<seq<CardLink>>)

  /** An optional string used as a condition: absent and empty are both false. */
  predicate Truthy(s: Option<string>)
    ensures Truthy(s) <==> s != None && s != Some("")
  {
    s.Some? && s.value != ""
  }

  /** The images of a slideshow, when there is at least one. */
  predicate HasImages(p: CardProps)
    ensures HasImages(p) <==> p.images != None && p.images != Some([])
  {
    p.images.Some? && |p.images.value| > 0
  }

  // ----- Slideshow -----

  /** One interval tick: the next image, wrapping round to the first after the last. */
  function Advance(index: nat, count: nat): (r: nat)
    requires count > 0
    ensures r < count
  {
    (index + 1) % count
  }

  /** The index after `k` ticks from the first image. */
  function IndexAfter(count: nat, k: nat): (r: nat)
    requires count > 0
    ensures r < count
    decreases k
  {
    if k == 0 then 0 else Advance(IndexAfter(count, k - 1), count)
  }

  /** After `k` ticks the slideshow shows image number `k mod count`. */
  lemma {:induction false} IndexAfterTicks(count: nat, k: nat)
    requires count > 0
    ensures IndexAfter(count, k) == k % count
    ensures IndexAfter(count, k) < count
    decreases k
  {
    if k > 0 {
      var prev := IndexAfter(count, k - 1);
      IndexAfterTicks(count, k - 1);
      assert IndexAfter(count, k) == (prev + 1) % count;
      ModSuccessor(k - 1, count);
    }
  }

  /** A positive multiple of `n` is at least `n`. */
  lemma {:induction false} MulAtLeast(a: int, n: int)
    requires a >= 1 && n > 0
    ensures a * n >= n
    decreases a
  {
    if a > 1 {
      MulAtLeast(a - 1, n);
      assert a * n == (a - 1) * n + n;
    }
  }

  /** The remainder is the only `r` in range with `k == q * n + r`. */
  lemma ModUnique(k: int, q: int, r: int, n: int)
    requires n > 0 && 0 <= r < n && k == q * n + r
    ensures k % n == r
  {
    var q', r' := k / n, k % n;
    assert k == q' * n + r';
    assert (q - q') * n == r' - r;
    if q - q' >= 1 {
      MulAtLeast(q - q', n);
    } else if q' - q >= 1 {
      MulAtLeast(q' - q, n);
    }
  }

  /** Advancing the remainder of `k` gives the remainder of `k + 1`. */
  lemma ModSuccessor(k: nat, count: nat)
    requires count > 0
    ensures (k % count + 1) % count == (k + 1) % count
  {
    var q, m := k / count, k % count;
    assert k == q * count + m;
    if m + 1 == count {
      ModUnique(m + 1, 1, 0, count);
      ModUnique(k + 1, q + 1, 0, count);
    } else {
      ModUnique(m + 1, 0, m + 1, count);
      ModUnique(k + 1, q, m + 1, count);
    }
  }

  /**
   * The slideshow state of one card. The interval runs only when there is
   * more than one image; `ticks` counts how often it has fired.
   */
  class Slideshow {
    const imageCount: nat
    var currentImageIndex: nat
    ghost var ticks: nat

    ghost predicate Valid()
      reads this
    {
      if imageCount > 1 then currentImageIndex == IndexAfter(imageCount, ticks)
      else currentImageIndex == 0 && ticks == 0
    }

    constructor (count: nat)
      ensures Valid()
      ensures imageCount == count && currentImageIndex == 0 && ticks == 0
    {
      imageCount := count;
      currentImageIndex := 0;
      ticks := 0;
    }

    /** The interval callback; with at most one image no interval was set up, so nothing happens. */
    method Tick()
      requires Valid()
      modifies this
      ensures Valid()
      ensures imageCount > 1 ==> currentImageIndex == (old(currentImageIndex) + 1) % imageCount
      ensures imageCount > 1 ==> ticks == old(ticks) + 1
      ensures imageCount <= 1 ==> currentImageIndex == old(currentImageIndex) && ticks == old(ticks)
    {
      if imageCount > 1 {
        currentImageIndex := (currentImageIndex + 1) % imageCount;
        ticks := ticks + 1;
      }
    }

    /** The index always names an image, and equals the number of ticks modulo the image count. */
    lemma IndexInRange()
      requires Valid()
      ensures imageCount > 0 ==> currentImageIndex < imageCount
      ensures imageCount > 1 ==> currentImageIndex == ticks % imageCount
    {
      if imageCount > 1 {
        IndexAfterTicks(imageCount, ticks);
      }
    }
  }

  // ----- Media -----

  /** The alternative text of a slideshow image: the title and the 1-based image number. */
  function AltText(title: string, index: nat): (r: string)
    ensures |r| > |title| + |" screenshot "|
    ensures r[..|title| + |" screenshot "|] == title + " screenshot "
    ensures r[|title| + |" screenshot "|..] == NatToString(index + 1)
    ensures AllDigits(r[|title| + |" screenshot "|..]) && r[|title| + |" screenshot "|] != '0'
    ensures ParseDigits(r[|title| + |" screenshot "|..]) == index + 1
  {
    var prefix := title + " screenshot ";
    var number := NatToString(index + 1);
    assert (prefix + number)[..|prefix|] == prefix;
    assert (prefix + number)[|prefix|..] == number;
    prefix + number
  }

  /** Different images of one card have different alternative texts. */
  lemma AltTextDistinct(title: string, i: nat, j: nat)
    requires AltText(title, i) == AltText(title, j)
    ensures i == j
  {
  }

  /**
   * The media area: the slideshow when there are images, else the video if
   * it is a non-empty string, else the image if it is, else nothing.
   */
  function SelectMedia(p: CardProps, index: nat): (r: Media)
    requires HasImages(p) ==> index < |p.images.value|
    ensures r.SlideshowImage? <==> HasImages(p)
    ensures r.VideoMedia? <==> !HasImages(p) && Truthy(p.video)
    ensures r.SingleImage? <==> !HasImages(p) && !Truthy(p.video) && Truthy(p.image)
    ensures r.NoMedia? <==> !HasImages(p) && !Truthy(p.video) && !Truthy(p.image)
    ensures r.SlideshowImage? ==> r.src == p.images.value[index] && r.alt == AltText(p.title, index)
    ensures r.VideoMedia? ==> r.src == p.video.value
    ensures r.SingleImage? ==> r.src == p.image.value && r.alt == p.title
  {
    if HasImages(p) then SlideshowImage(p.images.value[index], AltText(p.title, index))
    else if Truthy(p.video) then VideoMedia(p.video.value)
    else if Truthy(p.image) then SingleImage(p.image.value, p.title)
    else NoMedia
  }

  /** Images win over a video and an image, whatever those are. */
  lemma ImagesTakePriority(p: CardProps, index: nat, video: Option<string>, image: Option<string>)
    requires HasImages(p) && index < |p.images.value|
    ensures SelectMedia(p.(video := video, image := image), index) == SelectMedia(p, index)
  {
  }

  // ----- Link text -----

  /**
   * The printed link: absent without a link; otherwise the first "https://",
   * then the first "www.", then the first "/" are deleted, in that order.
   */
  function PrintLinkText(link: Option<string>): (r: Option<string>)
    ensures r.Some? <==> link.Some?
    ensures r.Some? ==> |r.value| <= |link.value|
  {
    match link
    case None => None
    case Some(url) => Some(RemoveFirst(RemoveFirst(RemoveFirst(url, "https://"), "www."), "/"))
  }

  /** A pattern at the very start is the first occurrence, and deleting it leaves the rest. */
  lemma RemoveLeading(pat: string, rest: string)
    ensures RemoveFirst(pat + rest, pat) == rest
  {
    var s := pat + rest;
    assert OccursAt(s, pat, 0) by {
      assert s[0..|pat|] == pat;
    }
    assert s[|pat|..] == rest;
  }

  /** In `host + "/" + path` with no slash in `host`, deleting the first slash joins host and path. */
  lemma RemoveFirstSlash(host: string, path: string)
    requires forall i :: 0 <= i < |host| ==> host[i] != '/'
    ensures RemoveFirst(host + "/" + path, "/") == host + path
  {
    var s := host + "/" + path;
    assert OccursAt(s, "/", |host|) by {
      assert s[|host|..|host| + 1] == "/";
    }
    forall j: nat | j < |host| ensures !OccursAt(s, "/", j) {
      assert s[j..j + 1] == [host[j]];
    }
    assert IndexOf(s, "/") == Some(|host|);
    assert s[..|host|] == host && s[|host| + 1..] == path;
  }

  /** The www-URL split into the parts the three replacements take off one by one. */
  lemma WwwUrlParts(host: string, path: string)
    ensures "https://www." + host + "/" + path == "https://" + ("www." + (host + "/" + path))
  {
    assert "https://www." == "https://" + "www.";
  }

  /** `https://www.<host>/<path>` prints as `<host><path>` when the host has no slash. */
  lemma PrintLinkOfWwwUrl(host: string, path: string)
    requires forall i :: 0 <= i < |host| ==> host[i] != '/'
    ensures PrintLinkText(Some("https://www." + host + "/" + path)) == Some(host + path)
  {
    var tail := host + "/" + path;
    var rest := "www." + tail;
    WwwUrlParts(host, path);
    RemoveLeading("https://", rest);
    RemoveLeading("www.", tail);
    RemoveFirstSlash(host, path);
  }

  /**
   * `https://<host>/<path>` with no "www." anywhere after the scheme prints as
   * `<host><path>`: only the first slash after the host is deleted, and later
   * slashes of the path stay.
   */
  lemma PrintLinkOfPlainUrl(host: string, path: string)
    requires forall i :: 0 <= i < |host| ==> host[i] != '/'
    requires !Includes(host + "/" + path, "www.")
    ensures PrintLinkText(Some("https://" + host + "/" + path)) == Some(host + path)
  {
    var rest := host + "/" + path;
    assert "https://" + host + "/" + path == "https://" + rest;
    RemoveLeading("https://", rest);
    RemoveFirstSlash(host, path);
  }

  /** A link without the scheme loses a later "https://" instead: `replace` is not anchored. */
  lemma PrintLinkRemovesInnerScheme()
    ensures PrintLinkText(Some("a/https://b")) == Some("ab")
  {
    var s := "a/https://b";
    assert OccursAt(s, "https://", 2) by {
      assert s[2..10] == "https://";
    }
    assert !OccursAt(s, "https://", 0) by {
      assert s[1] != "https://"[1];
    }
    assert !OccursAt(s, "https://", 1) by {
      assert s[1] != "https://"[0];
    }
    assert IndexOf(s, "https://") == Some(2);
    var t := s[..2] + s[10..];
    assert t == "a/b";
    assert !Includes(t, "www.");
    assert OccursAt(t, "/", 1) && !OccursAt(t, "/", 0);
    assert IndexOf(t, "/") == Some(1);
    assert t[..1] + t[2..] == "ab";
  }

  // ----- The card -----

  /** `href || "#"`: the card always links somewhere. */
  function CardTarget(href: Option<string>): (r: string)
    ensures r != ""
    ensures Truthy(href) ==> r == href.value
    ensures !Truthy(href) ==> r == "#"
  {
    if Truthy(href) then href.value else "#"
  }

  /** The whole card for the current slideshow index. */
  function RenderCard(p: CardProps, index: nat): (r: CardView)
    requires HasImages(p) ==> index < |p.images.value|
    ensures r.target == CardTarget(p.href) && r.media == SelectMedia(p, index)
    ensures r.printLink == PrintLinkText(p.link)
    ensures r.tagRow.Some? <==> |p.tags| > 0
    ensures r.tagRow.Some? ==> r.tagRow.value == p.tags
    ensures r.linkRow.Some? <==> p.links.Some? && |p.links.value| > 0
    ensures r.linkRow.Some? ==> r.linkRow.value == p.links.value
  {
    CardView(
      CardTarget(p.href),
      SelectMedia(p, index),
      PrintLinkText(p.link),
      if |p.tags| > 0 then Some(p.tags) else None,
      if p.links.Some? && |p.links.value| > 0 then Some(p.links.value) else None)
  }

  /** A card with a slideshow renders a valid image for every reachable slideshow state. */
  lemma SlideshowAlwaysShowsAnImage(p: CardProps, s: Slideshow)
    requires HasImages(p) && s.Valid() && s.imageCount == |p.images.value|
    ensures s.currentImageIndex < |p.images.value|
    ensures RenderCard(p, s.currentImageIndex).media.SlideshowImage?
  {
    s.IndexInRange();
  }

}
