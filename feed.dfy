/** The feed harvester (Services/BlogRetrievalService.cs): pages of an RSS
    feed are fetched as 1, 2, 3, ... until a page is not found, fails, or has
    no items; every item of every page before that becomes a BlogPost. */
module Feed {
  import opened Common
  import opened Models

  /** The record separator U+001E, which the upstream feed is known to emit. */
  const RecordSeparator: char := '\U{1E}'

  const BaseUrl: string := "https://trailheadtechnology.com/feed/?paged="
  const NoTitle: string := "No Title"
  const NoContent: string := "No Content"
  const PreviewLength: nat := 100
  const Ellipsis: string := "..."

  // ---------------------------------------------------------------------
  // Pure string helpers

  /** CleanInvalidXmlCharacters: the input with every U+001E removed. */
  function CleanInvalidXmlCharacters(s: string): string
  {
    if s == [] then []
    else CleanInvalidXmlCharacters(s[..|s| - 1]) + (if s[|s| - 1] == RecordSeparator then [] else [s[|s| - 1]])
  }

  /** Cleaning removes every U+001E and only those: the result has none left,
      and every other character occurs in it as often as in the input. */
  lemma {:induction false} CleanRemovesExactly(s: string)
    ensures forall i :: 0 <= i < |CleanInvalidXmlCharacters(s)| ==> CleanInvalidXmlCharacters(s)[i] != RecordSeparator
    ensures multiset(CleanInvalidXmlCharacters(s)) == multiset(s)[RecordSeparator := 0]
  {
    if s != [] {
      var init, last := s[..|s| - 1], s[|s| - 1];
      assert s == init + [last];
      CleanRemovesExactly(init);
    }
  }

  /** Cleaning keeps the order of what it keeps: it works piece by piece. */
  lemma {:induction false} CleanAppend(a: string, b: string)
    ensures CleanInvalidXmlCharacters(a + b) == CleanInvalidXmlCharacters(a) + CleanInvalidXmlCharacters(b)
  {
    if b == [] {
      assert a + b == a;
    } else {
      var init := b[..|b| - 1];
      assert (a + b)[..|a + b| - 1] == a + init;
      CleanAppend(a, init);
    }
  }

  lemma {:induction false} CleanShrinks(s: string)
    ensures |CleanInvalidXmlCharacters(s)| <= |s|
    ensures RecordSeparator in s ==> |CleanInvalidXmlCharacters(s)| < |s|
  {
    if s != [] {
      var init := s[..|s| - 1];
      CleanShrinks(init);
      assert s == init + [s[|s| - 1]];
    }
  }

  /** A string is left as it is exactly when it has no U+001E. */
  lemma {:induction false} CleanIsIdentity(s: string)
    ensures CleanInvalidXmlCharacters(s) == s <==> RecordSeparator !in s
  {
    CleanShrinks(s);
    if RecordSeparator !in s && s != [] {
      var init := s[..|s| - 1];
      assert s == init + [s[|s| - 1]];
      assert RecordSeparator !in init;
      CleanIsIdentity(init);
    }
  }

  /** Cleaning twice is cleaning once. */
  lemma CleanIdempotent(s: string)
    ensures CleanInvalidXmlCharacters(CleanInvalidXmlCharacters(s)) == CleanInvalidXmlCharacters(s)
  {
    CleanRemovesExactly(s);
    CleanIsIdentity(CleanInvalidXmlCharacters(s));
  }

  /** The element preview of InspectRssFeedStructure: the content itself when
      it has at most 100 characters, else its first 100 characters and "...". */
  function Preview(content: string): string
  {
    if |content| > PreviewLength then content[..PreviewLength] + Ellipsis else content
  }

  /** A preview has exactly min(|content|, 100) characters of the content,
      followed by "..." when something was cut off; so it is never longer
      than 103 characters. */
  lemma PreviewBounds(content: string)
    ensures |Preview(content)| == if |content| > PreviewLength then PreviewLength + |Ellipsis| else |content|
    ensures |Preview(content)| <= PreviewLength + |Ellipsis|
    ensures var n := if |content| < PreviewLength then |content| else PreviewLength;
            Preview(content)[..n] == content[..n]
    ensures |content| > PreviewLength ==> Preview(content)[PreviewLength..] == Ellipsis
  {
  }

  /** The preview leaves the content unchanged exactly when the content is
      short, or is 103 characters whose last three are "...". */
  lemma PreviewFixedPoint(content: string)
    ensures Preview(content) == content <==>
            |content| <= PreviewLength || (|content| == PreviewLength + 3 && content[PreviewLength..] == Ellipsis)
  {
    if |content| > PreviewLength && Preview(content) == content {
      assert content[PreviewLength..] == Preview(content)[PreviewLength..];
    }
    if |content| == PreviewLength + 3 && content[PreviewLength..] == Ellipsis {
      assert content == content[..PreviewLength] + content[PreviewLength..];
    }
  }

  // ---------------------------------------------------------------------
  // Pages and items

  /** An <item> of the feed: the value of its first <title>, <content:encoded>,
      <description> and <link> child (None when there is no such child), and
      the values of all its <category> children in document order. */
  datatype Item = Item(
    title: Option<string>,
    encoded: Option<string>,
    description: Option<string>,
    link: Option<string>,
    categories: seq<string>)

  /** What GET on a page URL produced: a status and body, or an exception. */
  datatype FetchOutcome = FetchFailed | Fetched(status: int, body: string)

  /** A page, as the harvesting loop classifies it. */
  datatype Page = Missing | Failed | Items(items: seq<Item>)

  function PageUrl(n: nat): string {
    BaseUrl + NatToString(n)
  }

  /** Different page numbers give different URLs. */
  lemma PageUrlInjective(m: nat, n: nat)
    requires PageUrl(m) == PageUrl(n)
    ensures m == n
  {
    assert NatToString(m) == PageUrl(m)[|BaseUrl|..];
    assert NatToString(n) == PageUrl(n)[|BaseUrl|..];
    NatToStringInjective(m, n);
  }

  /** Page n of the feed. `fetch` answers a GET on a URL; `parse` is
      XDocument.Parse followed by Descendants("item"), None when it throws.
      A 404 ends the feed; any other exchange that fails, any non-2xx status
      and any parse error is a failed page; the body is cleaned before it
      is parsed. */
  function PageAt(fetch: string -> FetchOutcome, parse: string -> Option<seq<Item>>, n: nat): Page
  {
    match fetch(PageUrl(n))
    case FetchFailed => Failed
    case Fetched(status, body) =>
      if status == NotFound then Missing
      else if !IsSuccessStatus(status) then Failed
      else
        match parse(CleanInvalidXmlCharacters(body))
        case None => Failed
        case Some(items) => Items(items)
  }

  /** `pages` is the feed that `fetch` and `parse` give, page by page. */
  ghost predicate IsFeed(pages: nat -> Page, fetch: string -> FetchOutcome, parse: string -> Option<seq<Item>>) {
    forall n: nat {:trigger PageAt(fetch, parse, n)} :: pages(n) == PageAt(fetch, parse, n)
  }

  /** Every pair of oracles has a feed: the ghost `pages` the harvesting
      loop takes can always be supplied. */
  lemma FeedExists(fetch: string -> FetchOutcome, parse: string -> Option<seq<Item>>)
    ensures exists pages :: IsFeed(pages, fetch, parse)
  {
    var pages := (n: nat) => PageAt(fetch, parse, n);
    assert IsFeed(pages, fetch, parse);
  }

  /** Only a non-empty item list lets harvesting go on to the next page. */
  predicate Continues(p: Page) {
    p.Items? && |p.items| > 0
  }

  /** The feed ends: some page from 1 on does not continue. Without this the
      source's loop does not terminate. */
  ghost predicate Terminates(pages: nat -> Page) {
    exists n: nat :: n >= 1 && !Continues(pages(n))
  }

  /** Page n is the first page, counting from 1, that does not continue. */
  ghost predicate IsFirstStop(pages: nat -> Page, n: nat) {
    && n >= 1
    && !Continues(pages(n))
    && forall k: nat :: 1 <= k < n ==> Continues(pages(k))
  }

  lemma FirstStopUnique(pages: nat -> Page, m: nat, n: nat)
    requires IsFirstStop(pages, m) && IsFirstStop(pages, n)
    ensures m == n
  {
  }

  function SearchStop(pages: nat -> Page, k: nat, bound: nat): (n: nat)
    requires 1 <= k <= bound && !Continues(pages(bound))
    requires forall j: nat :: 1 <= j < k ==> Continues(pages(j))
    ensures k <= n <= bound
    ensures !Continues(pages(n))
    ensures forall j: nat :: 1 <= j < n ==> Continues(pages(j))
    decreases bound - k
  {
    if !Continues(pages(k)) then k else SearchStop(pages, k + 1, bound)
  }

  /** The page on which harvesting stops. */
  ghost function FirstStop(pages: nat -> Page): (n: nat)
    requires Terminates(pages)
    ensures IsFirstStop(pages, n)
  {
    var bound: nat :| bound >= 1 && !Continues(pages(bound));
    SearchStop(pages, 1, bound)
  }

  function ItemsOf(p: Page): seq<Item> {
    if p.Items? then p.items else []
  }

  /** The items of pages from, ..., to - 1, page after page. */
  function ItemsBetween(pages: nat -> Page, from: nat, to: nat): seq<Item>
    decreases to
  {
    if to <= from then [] else ItemsBetween(pages, from, to - 1) + ItemsOf(pages(to - 1))
  }

  /** Consecutive runs of pages contribute their items one after the other. */
  lemma {:induction false} ItemsBetweenSplit(pages: nat -> Page, a: nat, b: nat, c: nat)
    requires a <= b <= c
    ensures ItemsBetween(pages, a, c) == ItemsBetween(pages, a, b) + ItemsBetween(pages, b, c)
    decreases c
  {
    if b < c {
      ItemsBetweenSplit(pages, a, b, c - 1);
      var last := ItemsOf(pages(c - 1));
      assert ItemsBetween(pages, a, c) == ItemsBetween(pages, a, c - 1) + last;
      assert ItemsBetween(pages, b, c) == ItemsBetween(pages, b, c - 1) + last;
    }
  }

  /** Pages that continue each contribute at least one item. */
  lemma {:induction false} ItemsBetweenAtLeast(pages: nat -> Page, n: nat)
    requires n >= 1
    requires forall k: nat :: 1 <= k < n ==> Continues(pages(k))
    ensures |ItemsBetween(pages, 1, n)| >= n - 1
  {
    if n > 1 {
      ItemsBetweenAtLeast(pages, n - 1);
    }
  }

  /** The post for one item: title, else "No Title"; content:encoded, else
      description, else "No Content"; link, else ""; every category, in order;
      the combined text generated from those; the other fields at their
      defaults. */
  function MapItem(item: Item, id: string, createdAt: int): PostValue
  {
    var title := match item.title case Some(t) => t case None => NoTitle;
    var content :=
      match item.encoded
      case Some(c) => c
      case None => match item.description case Some(d) => d case None => NoContent;
    var url := match item.link case Some(l) => l case None => "";
    PostValue(id, title, content, url, item.categories, [], CombinedTextOf(title, content, item.categories), createdAt)
  }

  /** Each field of an item's post follows its own default rule, independently
      of the others. */
  lemma MapItemFields(item: Item, id: string, createdAt: int)
    ensures var p := MapItem(item, id, createdAt);
      && p.title == (if item.title.Some? then item.title.value else NoTitle)
      && (item.encoded.Some? ==> p.content == item.encoded.value)
      && (item.encoded.None? && item.description.Some? ==> p.content == item.description.value)
      && (item.encoded.None? && item.description.None? ==> p.content == NoContent)
      && p.url == (if item.link.Some? then item.link.value else "")
      && p.categories == item.categories
      && TextCurrent(p) && p.vector == [] && p.id == id && p.createdAt == createdAt
  {
  }

  /** The posts made from a list of items; the k-th post created takes the
      k-th id and timestamp. */
  function PostsOf(items: seq<Item>, ids: nat -> string, clock: nat -> int): seq<PostValue>
  {
    seq(|items|, i requires 0 <= i < |items| => MapItem(items[i], ids(i), clock(i)))
  }

  /** What harvesting returns: the posts of every page before the first stop. */
  ghost function Harvested(pages: nat -> Page, ids: nat -> string, clock: nat -> int): seq<PostValue>
    requires Terminates(pages)
  {
    PostsOf(ItemsBetween(pages, 1, FirstStop(pages)), ids, clock)
  }

  /** When page n is the first to be missing, to fail or to be empty, the
      result is exactly the posts of pages 1 to n - 1, in page order and then
      item order, and nothing of page n. */
  lemma HarvestStopsAt(pages: nat -> Page, ids: nat -> string, clock: nat -> int, n: nat)
    requires n >= 1 && !Continues(pages(n))
    requires forall k: nat :: 1 <= k < n ==> Continues(pages(k))
    ensures Terminates(pages) && FirstStop(pages) == n
    ensures Harvested(pages, ids, clock) == PostsOf(ItemsBetween(pages, 1, n), ids, clock)
  {
    FirstStopUnique(pages, FirstStop(pages), n);
  }

  /** Every harvested post has its combined text generated from its final
      title, content and categories, and no vector yet. */
  lemma HarvestedTextCurrent(pages: nat -> Page, ids: nat -> string, clock: nat -> int, i: nat)
    requires Terminates(pages)
    requires i < |Harvested(pages, ids, clock)|
    ensures TextCurrent(Harvested(pages, ids, clock)[i])
    ensures Harvested(pages, ids, clock)[i].vector == []
  {
    var items := ItemsBetween(pages, 1, FirstStop(pages));
    assert Harvested(pages, ids, clock)[i] == MapItem(items[i], ids(i), clock(i));
    MapItemFields(items[i], ids(i), clock(i));
  }

  // ---------------------------------------------------------------------
  // The harvesting loop

  lemma HarvestedFromStop(pages: nat -> Page, ids: nat -> string, clock: nat -> int, last: nat)
    requires IsFirstStop(pages, last)
    ensures Terminates(pages) && FirstStop(pages) == last
    ensures var h, items := Harvested(pages, ids, clock), ItemsBetween(pages, 1, last);
      |h| == |items| && forall i :: 0 <= i < |h| ==> h[i] == MapItem(items[i], ids(i), clock(i))
  {
    FirstStopUnique(pages, FirstStop(pages), last);
  }

  lemma ItemsBetweenStep(pages: nat -> Page, from: nat, to: nat)
    requires from <= to
    ensures ItemsBetween(pages, from, to + 1) == ItemsBetween(pages, from, to) + ItemsOf(pages(to))
  {
  }

  lemma ContinuesOneMore(pages: nat -> Page, n: nat)
    requires forall k: nat :: 1 <= k < n ==> Continues(pages(k))
    requires Continues(pages(n))
    ensures forall k: nat :: 1 <= k < n + 1 ==> Continues(pages(k))
  {
  }

  /** The body of one iteration up to the item list: GET the page URL, treat
      404 as the end, any other non-2xx status or exception as a failure,
      clean the body and parse it. */
  method FetchPage(fetch: string -> FetchOutcome, parse: string -> Option<seq<Item>>, pageNumber: nat)
    returns (page: Page, url: string)
    ensures page == PageAt(fetch, parse, pageNumber)
    ensures url == PageUrl(pageNumber)
  {
    url := BaseUrl + NatToString(pageNumber);
    match fetch(url) {
      case FetchFailed =>
        return Failed, url;
      case Fetched(status, body) =>
        if status == NotFound {
          return Missing, url;
        }
        if !IsSuccessStatus(status) {
          return Failed, url;
        }
        var feedContent := CleanInvalidXmlCharacters(body);
        match parse(feedContent) {
          case None =>
            return Failed, url;
          case Some(items) =>
            return Items(items), url;
        }
    }
  }

  /** The body of the foreach over items: a new BlogPost whose fields are
      set from the item, each with its own default, and whose combined text
      is then generated. */
  method NewPostFrom(item: Item, id: string, createdAt: int) returns (blogPost: BlogPost)
    ensures fresh(blogPost)
    ensures blogPost.Snapshot() == MapItem(item, id, createdAt)
  {
    var title := match item.title case Some(t) => t case None => NoTitle;
    var content :=
      match item.encoded
      case Some(c) => c
      case None => match item.description case Some(d) => d case None => NoContent;
    var urlItem := match item.link case Some(l) => l case None => "";
    blogPost := new BlogPost(id, createdAt);
    blogPost.title, blogPost.content, blogPost.url, blogPost.categories := title, content, urlItem, item.categories;
    blogPost.GenerateCombinedText();
  }

  /** The page numbers 1, 2, ..., n, in order. */
  function PagesUpTo(n: nat): seq<nat>
  {
    if n == 0 then [] else PagesUpTo(n - 1) + [n]
  }

  lemma {:induction false} PagesUpToShape(n: nat)
    ensures |PagesUpTo(n)| == n
    ensures forall k :: 0 <= k < n ==> PagesUpTo(n)[k] == k + 1
  {
    if n > 0 {
      PagesUpToShape(n - 1);
    }
  }

  /** The foreach over the items of one page: one new post per item,
      appended in item order. The k-th post created overall takes the k-th
      id and timestamp; `collected` are the items the earlier posts came from. */
  method AddItems(posts: seq<BlogPost>, items: seq<Item>, ids: nat -> string, clock: nat -> int, ghost collected: seq<Item>)
    returns (result: seq<BlogPost>)
    requires |posts| == |collected|
    requires forall i :: 0 <= i < |posts| ==> posts[i].Snapshot() == MapItem(collected[i], ids(i), clock(i))
    requires forall i, j :: 0 <= i < j < |posts| ==> posts[i] != posts[j]
    ensures |result| == |posts| + |items| && result[..|posts|] == posts
    ensures forall i :: 0 <= i < |result| ==> result[i].Snapshot() == MapItem((collected + items)[i], ids(i), clock(i))
    ensures forall i :: |posts| <= i < |result| ==> fresh(result[i])
    ensures forall i, j :: 0 <= i < j < |result| ==> result[i] != result[j]
  {
    result := posts;
    var j := 0;
    while j < |items|
      invariant 0 <= j <= |items| && |result| == |posts| + j && result[..|posts|] == posts
      invariant forall i :: 0 <= i < |result| ==> result[i].Snapshot() == MapItem((collected + items)[i], ids(i), clock(i))
      invariant forall i :: |posts| <= i < |result| ==> fresh(result[i])
      invariant forall i, k :: 0 <= i < k < |result| ==> result[i] != result[k]
    {
      var blogPost := NewPostFrom(items[j], ids(|result|), clock(|result|));
      assert (collected + items)[|result|] == items[j];
      ghost var prev := result;
      result := result + [blogPost];
      forall i | 0 <= i < |result|
        ensures result[i].Snapshot() == MapItem((collected + items)[i], ids(i), clock(i))
      {
        if i < |prev| {
          assert result[i] == prev[i];
        }
      }
      j := j + 1;
    }
  }

  /** One iteration of the harvesting loop: fetch page pageNumber and, when
      it continues the feed, append one new post per item. */
  method HarvestPage(fetch: string -> FetchOutcome, parse: string -> Option<seq<Item>>, ids: nat -> string, clock: nat -> int,
                     ghost pages: nat -> Page, pageNumber: nat, posts: seq<BlogPost>, ghost collected: seq<Item>)
    returns (page: Page, result: seq<BlogPost>)
    requires IsFeed(pages, fetch, parse)
    requires |posts| == |collected|
    requires forall i :: 0 <= i < |posts| ==> posts[i].Snapshot() == MapItem(collected[i], ids(i), clock(i))
    requires forall i, j :: 0 <= i < j < |posts| ==> posts[i] != posts[j]
    ensures page == pages(pageNumber)
    ensures !Continues(page) ==> result == posts
    ensures Continues(page) ==>
      && |result| == |posts| + |page.items| && result[..|posts|] == posts
      && (forall i :: 0 <= i < |result| ==> result[i].Snapshot() == MapItem((collected + page.items)[i], ids(i), clock(i)))
      && (forall i :: |posts| <= i < |result| ==> fresh(result[i]))
      && (forall i, j :: 0 <= i < j < |result| ==> result[i] != result[j])
  {
    var url;
    page, url := FetchPage(fetch, parse, pageNumber);
    assert page == pages(pageNumber);
    result := posts;
    if Continues(page) {
      result := AddItems(posts, page.items, ids, clock, collected);
    }
  }

  /** GetAllBlogPostsAsync. Requests pages 1, 2, ... up to and including the
      first page that stops harvesting, and no page after it; returns one new
      BlogPost per item of the pages before that one. No failure escapes: a
      failed page ends the loop with what was collected. `pages` stands for
      the feed as the loop will find it, page by page. `requested` lists
      the page numbers fetched, in order; page n is fetched from PageUrl(n)
      (FetchPage). */
  method GetAllBlogPosts(fetch: string -> FetchOutcome, parse: string -> Option<seq<Item>>, ids: nat -> string, clock: nat -> int,
                         ghost pages: nat -> Page)
    returns (posts: seq<BlogPost>, ghost requested: seq<nat>)
    requires IsFeed(pages, fetch, parse)
    requires Terminates(pages)
    ensures requested == PagesUpTo(FirstStop(pages))
    ensures |posts| == |Harvested(pages, ids, clock)|
    ensures forall i :: 0 <= i < |posts| ==> fresh(posts[i]) && posts[i].Snapshot() == Harvested(pages, ids, clock)[i]
    ensures forall i, j :: 0 <= i < j < |posts| ==> posts[i] != posts[j]
  {
    ghost var last, collected;
    posts, requested, last, collected := HarvestUntilStop(fetch, parse, ids, clock, pages);
    HarvestedFromStop(pages, ids, clock, last);
  }

  /** The while loop of GetAllBlogPostsAsync: stops at the first page that
      is missing, fails or is empty; `last` is that page and `collected` the
      items of the pages before it. */
  method HarvestUntilStop(fetch: string -> FetchOutcome, parse: string -> Option<seq<Item>>, ids: nat -> string, clock: nat -> int,
                      ghost pages: nat -> Page)
    returns (posts: seq<BlogPost>, ghost requested: seq<nat>, ghost last: nat, ghost collected: seq<Item>)
    requires IsFeed(pages, fetch, parse)
    requires Terminates(pages)
    ensures IsFirstStop(pages, last) && collected == ItemsBetween(pages, 1, last) && requested == PagesUpTo(last)
    ensures |posts| == |collected|
    ensures forall i :: 0 <= i < |posts| ==> fresh(posts[i]) && posts[i].Snapshot() == MapItem(collected[i], ids(i), clock(i))
    ensures forall i, j :: 0 <= i < j < |posts| ==> posts[i] != posts[j]
  {
    ghost var bound: nat :| bound >= 1 && !Continues(pages(bound));
    last := 0;
    posts, requested := [], [];
    var pageNumber: nat := 1;
    var isEmptyPage := false;
    collected := [];
    while !isEmptyPage
      invariant 1 <= pageNumber <= bound + 1
      invariant !isEmptyPage ==> pageNumber <= bound
      invariant !isEmptyPage ==> forall k: nat :: 1 <= k < pageNumber ==> Continues(pages(k))
      invariant isEmptyPage ==> pageNumber >= 2 && IsFirstStop(pages, pageNumber - 1) && last == pageNumber - 1
      invariant isEmptyPage ==> collected == ItemsBetween(pages, 1, last)
      invariant requested == PagesUpTo(pageNumber - 1)
      invariant collected == ItemsBetween(pages, 1, pageNumber)
      invariant |posts| == |collected|
      invariant forall i :: 0 <= i < |posts| ==> fresh(posts[i]) && posts[i].Snapshot() == MapItem(collected[i], ids(i), clock(i))
      invariant forall i, j :: 0 <= i < j < |posts| ==> posts[i] != posts[j]
      decreases bound + 1 - pageNumber
    {
      var page;
      page, posts := HarvestPage(fetch, parse, ids, clock, pages, pageNumber, posts, collected);
      requested := requested + [pageNumber];
      ItemsBetweenStep(pages, 1, pageNumber);
      match page {
        case Missing | Failed =>
          last := pageNumber;
          break;
        case Items(items) =>
          if |items| == 0 {
            isEmptyPage := true;
            last := pageNumber;
          } else {
            collected := collected + items;
            ContinuesOneMore(pages, pageNumber);
          }
      }
      pageNumber := pageNumber + 1;
    }
  }
}
