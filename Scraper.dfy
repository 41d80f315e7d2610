/**
 * scraper.py: finds the category pages on the help centre's home page, the
 * article links on each category page, and builds one record per article.
 *
 * Fetching and HTML parsing are not modelled: a page is given as what the
 * crawler reads from it. The home page is the list of its link targets; a
 * category page is its first `h1` and the link targets in its article
 * list; an article page is what its fetch gave. Article fetches are
 * answered by `fetch`, a script indexed by the number of article fetches
 * made so far, so that a second fetch of the same URL may answer
 * differently from the first.
 */
module Scraper {
  import opened Wrappers
  import opened Text
  import opened Records
  import ContentType
  import Keywords
  import ArticleUtils

  const BaseUrl := "https://help.zipboard.co"
  const CategoryPrefix := "/category"
  const ArticlePrefix := "/article"
  const ArticleMarker := "/article/"
  const NoTitle := "No Title"
  const NotAvailable := "Not Available"
  const UpdatedPrefix := "Last updated on "

  // ---------------------------------------------------------------------
  // get_categories

  /** `get_categories()`, given the link targets of the home page: the
      absolute URL of every `/category` link, each once, in no particular
      order (the source passes them through a `set`). */
  method GetCategories(hrefs: seq<string>) returns (categories: seq<string>)
    ensures Distinct(categories)
    ensures forall c :: c in categories <==>
              exists h :: h in hrefs && StartsWith(h, CategoryPrefix) && c == BaseUrl + h
  {
    var found: seq<string> := [];
    for i := 0 to |hrefs|
      invariant forall c :: c in found <==>
                  exists h :: h in hrefs[..i] && StartsWith(h, CategoryPrefix) && c == BaseUrl + h
    {
      assert hrefs[..i + 1] == hrefs[..i] + [hrefs[i]];
      if StartsWith(hrefs[i], CategoryPrefix) {
        found := found + [BaseUrl + hrefs[i]];
      }
    }
    assert hrefs[..|hrefs|] == hrefs;
    var pending := set c | c in found;
    categories := [];
    while pending != {}
      invariant Distinct(categories)
      invariant forall c :: c in found <==> c in pending || c in categories
      invariant forall c :: c in pending ==> c !in categories
      decreases |pending|
    {
      var c :| c in pending;
      categories := categories + [c];
      pending := pending - {c};
    }
  }

  // ---------------------------------------------------------------------
  // get_articles_from_category

  /** A category page: its first `h1`, if any, and the link targets inside
      its `ul.articleList`, if it has one. */
  datatype CategoryPage = CategoryPage(heading: Option<string>, articleList: Option<seq<string>>)

  /** An article link with the title of the category page it was found on. */
  datatype Link = Link(url: string, category: string)

  /** The links among `hrefs` to articles, made absolute, with their category. */
  function ArticleLinks(hrefs: seq<string>, title: string): (links: seq<Link>)
    ensures |links| <= |hrefs|
    ensures forall l :: l in links <==>
              l.category == title && exists h :: h in hrefs && StartsWith(h, ArticlePrefix) && l.url == BaseUrl + h
  {
    if hrefs == [] then []
    else
      var init, h := hrefs[..|hrefs| - 1], hrefs[|hrefs| - 1];
      assert hrefs == init + [h];
      ArticleLinks(init, title) + if StartsWith(h, ArticlePrefix) then [Link(BaseUrl + h, title)] else []
  }

  /** The links keep the order of the targets: each part of the list is
      filtered on its own. */
  lemma {:induction false} ArticleLinksConcat(a: seq<string>, b: seq<string>, title: string)
    ensures ArticleLinks(a + b, title) == ArticleLinks(a, title) + ArticleLinks(b, title)
    decreases |b|
  {
    if b == [] {
      assert a + b == a;
    } else {
      var init, h := b[..|b| - 1], b[|b| - 1];
      assert a + b == (a + init) + [h];
      ArticleLinksConcat(a, init, title);
      ConcatAssoc(ArticleLinks(a, title), ArticleLinks(init, title),
                  if StartsWith(h, ArticlePrefix) then [Link(BaseUrl + h, title)] else []);
    }
  }

  /** One target gives one link when it starts with "/article", none otherwise. */
  lemma ArticleLinksOne(h: string, title: string)
    ensures ArticleLinks([h], title) == if StartsWith(h, ArticlePrefix) then [Link(BaseUrl + h, title)] else []
  {
    assert [h][..0] == [];
  }

  /** What `get_articles_from_category` returns for a page: nothing when it
      has no article list, otherwise its article links titled by its `h1`
      or "No Title". */
  function CategoryLinks(page: CategoryPage): seq<Link> {
    match page.articleList
    case None => []
    case Some(hrefs) => ArticleLinks(hrefs, page.heading.GetOr(NoTitle))
  }

  /** `get_articles_from_category(category_url)` on the fetched page. */
  method GetArticlesFromCategory(page: CategoryPage) returns (articles: seq<Link>)
    ensures articles == CategoryLinks(page)
  {
    var title := if page.heading.Some? then page.heading.value else NoTitle;
    if page.articleList.None? {
      return [];
    }
    var hrefs := page.articleList.value;
    articles := [];
    for i := 0 to |hrefs|
      invariant articles == ArticleLinks(hrefs[..i], title)
    {
      assert hrefs[..i + 1][..i] == hrefs[..i];
      if StartsWith(hrefs[i], ArticlePrefix) {
        articles := articles + [Link(BaseUrl + hrefs[i], title)];
      }
    }
    assert hrefs[..|hrefs|] == hrefs;
  }

  // ---------------------------------------------------------------------
  // parse_article

  /** The `article#fullArticle` element, as the record's fields read it:
      the text of its `h1`-`h3` headings and of its `strong`/`b` elements,
      its text nodes in document order, and each image's `src`. */
  datatype ArticleBody = ArticleBody(
    headings: seq<string>,
    emphasis: seq<string>,
    textNodes: seq<string>,
    images: seq<Option<string>>)

  /** An article fetch: failed, or the page's first `h1`, its
      `article#fullArticle` and the text of its `time.lu` element. */
  datatype ArticlePage =
    | Unreachable
    | Page(heading: Option<string>, container: Option<ArticleBody>, updated: Option<string>)

  /** `article.get_text()`: the text nodes concatenated. */
  function AllText(nodes: seq<string>): string {
    if nodes == [] then [] else nodes[0] + AllText(nodes[1..])
  }

  /** `get_text()` is `"".join` of the text nodes. */
  lemma {:induction false} AllTextIsJoin(nodes: seq<string>)
    ensures AllText(nodes) == Join(nodes, "")
    decreases |nodes|
  {
    if nodes != [] {
      AllTextIsJoin(nodes[1..]);
      if |nodes| == 1 {
        assert AllText(nodes[1..]) == [];
      }
    }
  }

  /** The text of consecutive nodes is their texts in document order. */
  lemma {:induction false} AllTextConcat(a: seq<string>, b: seq<string>)
    ensures AllText(a + b) == AllText(a) + AllText(b)
    decreases |a|
  {
    if a != [] {
      assert (a + b)[1..] == a[1..] + b;
      AllTextConcat(a[1..], b);
      ConcatAssoc(a[0], AllText(a[1..]), AllText(b));
    } else {
      assert a + b == b;
    }
  }

  /** `id` is what `.split('/article/')[0].split('-')[0]` takes from
      `after`: the longest prefix of `after` that holds no '-' and in which
      no "/article/" starts. */
  predicate IdOf(after: string, id: string) {
    && StartsWith(after, id) && '-' !in id
    && (forall p :: 0 <= p < |id| ==> !StartsWith(after[p..], ArticleMarker))
    && (|id| == |after| || after[|id|] == '-' || StartsWith(after[|id|..], ArticleMarker))
  }

  /** At most one text is the identifier taken from `after`. */
  lemma IdOfUnique(after: string, a: string, b: string)
    requires IdOf(after, a) && IdOf(after, b)
    ensures a == b
  {
    assert forall p :: 0 <= p < |a| ==> after[p] == a[p];
    assert forall p :: 0 <= p < |b| ==> after[p] == b[p];
  }

  /** `after.split('/article/')[0]`: the text up to the first "/article/". */
  function Segment(after: string): (segment: string)
    ensures StartsWith(after, segment)
    ensures forall p :: 0 <= p < |segment| ==> !StartsWith(after[p..], ArticleMarker)
    ensures |segment| == |after| || StartsWith(after[|segment|..], ArticleMarker)
  {
    match Find(after, ArticleMarker)
    case None => NowhereAbsent(after, ArticleMarker); after
    case Some(j) => after[..j]
  }

  /** The identifier taken from the segment is the one `IdOf` describes. */
  lemma IdOfSegment(after: string)
    ensures IdOf(after, Before(Segment(after), '-'))
  {
    var segment := Segment(after);
    var id := Before(segment, '-');
    PrefixOfSegment(after, segment, id);
    if |id| < |segment| {
      assert after[|id|] == segment[|id|];
    }
  }

  /** `url.split('/article/')[1].split('-')[0]`: the text after the first
      "/article/", up to the next "/article/" and then up to the first '-';
      nothing when the URL has no "/article/" (the indexing fails). */
  function ArticleId(url: string): (r: Option<string>)
    ensures r.None? <==> !Contains(url, ArticleMarker)
    ensures r.Some? ==> (Find(url, ArticleMarker).Some? &&
              IdOf(url[Find(url, ArticleMarker).value + |ArticleMarker|..], r.value))
  {
    match Find(url, ArticleMarker)
    case None => None
    case Some(i) =>
      var after := url[i + |ArticleMarker|..];
      IdOfSegment(after);
      Some(Before(Segment(after), '-'))
  }

  lemma PrefixOfSegment(after: string, segment: string, id: string)
    requires StartsWith(after, segment) && StartsWith(segment, id)
    ensures StartsWith(after, id)
  {
    assert after[..|id|] == segment[..|id|];
  }

  /** The "Last Updated" text: the `time.lu` text with every "Last updated
      on " removed, or "Not Available" when the page has none. */
  function LastUpdatedText(updated: Option<string>): (r: string)
    ensures updated.None? ==> r == NotAvailable
    ensures updated.Some? ==> |r| <= |updated.value|
    ensures updated.Some? && !Contains(updated.value, UpdatedPrefix) ==> r == updated.value
  {
    match updated
    case None => NotAvailable
    case Some(text) =>
      if Contains(text, UpdatedPrefix) then RemoveAll(text, UpdatedPrefix)
      else RemoveAllAbsent(text, UpdatedPrefix); RemoveAll(text, UpdatedPrefix)
  }

  /** `parse_article(article_url, category_title)`: nothing when the fetch
      fails, the page has no `article#fullArticle` or the URL no
      "/article/" (the source catches the error); otherwise the record. */
  function ParseArticle(url: string, category: string, page: ArticlePage): (r: Option<Article>)
    ensures r.Some? <==> page.Page? && page.container.Some? && Contains(url, ArticleMarker)
    ensures r.Some? ==> r.value.url == url && r.value.category == category && r.value.gaps == Str("")
    ensures r.Some? ==> r.value.title == page.heading.GetOr(NoTitle)
    ensures r.Some? ==> r.value.contentType in ContentType.Labels
    ensures r.Some? ==> r.value.hasScreenshots in {ArticleUtils.Yes, ArticleUtils.No}
    ensures r.Some? ==> page.Page? && r.value.lastUpdated == LastUpdatedText(page.updated)
    ensures r.Some? ==> ArticleId(url) == Some(r.value.id)
    ensures r.Some? ==> r.value.contentType == ContentType.Classify(r.value.title)
    ensures r.Some? ==> (page.Page? && page.container.Some? &&
              r.value.hasScreenshots == ArticleUtils.HasScreenshots(page.container.value.images) &&
              r.value.wordCount == ArticleUtils.WordCount(page.container.value.textNodes))
    ensures r.Some? ==> (page.Page? && page.container.Some? &&
              var body := page.container.value;
              r.value.keywords == Join(Keywords.TopKeywords(body.headings, body.emphasis, AllText(body.textNodes), Keywords.DefaultTopN), ", "))
  {
    if page.Unreachable? || page.container.None? then None
    else
      var body := page.container.value;
      var title := page.heading.GetOr(NoTitle);
      match ArticleId(url)
      case None => None
      case Some(id) =>
        var keywords := Keywords.TopKeywords(body.headings, body.emphasis, AllText(body.textNodes), Keywords.DefaultTopN);
        Some(Article(
          id := id,
          title := title,
          category := category,
          url := url,
          lastUpdated := LastUpdatedText(page.updated),
          contentType := ContentType.Classify(title),
          keywords := Join(keywords, ", "),
          wordCount := ArticleUtils.WordCount(body.textNodes),
          hasScreenshots := ArticleUtils.HasScreenshots(body.images),
          gaps := Str("")))
  }

  // ---------------------------------------------------------------------
  // scrape_all_articles

  /** The crawl so far: the records by URL, the URLs in the order they were
      recorded (the dict's order), and the number of article fetches. */
  datatype Crawl = Crawl(data: map<string, Article>, order: seq<string>, fetches: nat)

  /** One article link: skipped when its URL already has a record, otherwise
      fetched (with the next scripted answer) and recorded if it parses. */
  function Visit(c: Crawl, link: Link, fetch: nat -> ArticlePage): Crawl {
    if link.url in c.data then c
    else Record(c, link.url, ParseArticle(link.url, link.category, fetch(c.fetches)))
  }

  /** One fetch of `url` done: its record added when the page parsed. */
  function Record(c: Crawl, url: string, parsed: Option<Article>): Crawl {
    match parsed
    case None => c.(fetches := c.fetches + 1)
    case Some(a) => Crawl(c.data[url := a], c.order + [url], c.fetches + 1)
  }

  /** The crawl after visiting `links` in order. */
  function CrawlLinks(links: seq<Link>, fetch: nat -> ArticlePage): Crawl {
    if links == [] then Crawl(map[], [], 0)
    else Visit(CrawlLinks(links[..|links| - 1], fetch), links[|links| - 1], fetch)
  }

  lemma CrawlSnoc(links: seq<Link>, link: Link, fetch: nat -> ArticlePage)
    ensures CrawlLinks(links + [link], fetch) == Visit(CrawlLinks(links, fetch), link, fetch)
  {
    assert (links + [link])[..|links|] == links;
  }

  /** The article links of all categories, category after category. */
  function AllLinks(categories: seq<string>, listing: string -> CategoryPage): seq<Link> {
    if categories == [] then []
    else AllLinks(categories[..|categories| - 1], listing) + CategoryLinks(listing(categories[|categories| - 1]))
  }

  /** The crawl is consistent: every URL recorded once, in `order` and
      keyed in `data`; every record is the one of its own URL, parsed with
      the category of a link to it; and no more fetches than links. */
  ghost predicate WellFormed(c: Crawl, links: seq<Link>) {
    && Distinct(c.order)
    && (forall u :: u in c.data <==> u in c.order)
    && (forall u :: u in c.data ==> c.data[u].url == u)
    && (forall u :: u in c.data ==> Link(u, c.data[u].category) in links)
    && c.fetches <= |links|
  }

  lemma {:induction false} CrawlWellFormed(links: seq<Link>, fetch: nat -> ArticlePage)
    ensures WellFormed(CrawlLinks(links, fetch), links)
    decreases |links|
  {
    if links != [] {
      var init, last := links[..|links| - 1], links[|links| - 1];
      CrawlWellFormed(init, fetch);
      assert links == init + [last];
      VisitWellFormed(CrawlLinks(init, fetch), init, last, fetch);
    }
  }

  /** Visiting one more link keeps the crawl consistent. */
  lemma VisitWellFormed(c: Crawl, links: seq<Link>, link: Link, fetch: nat -> ArticlePage)
    requires WellFormed(c, links)
    ensures WellFormed(Visit(c, link, fetch), links + [link])
  {
    var parsed := ParseArticle(link.url, link.category, fetch(c.fetches));
    if link.url in c.data || parsed.None? {
      LinksGrow(c, links, link, c.fetches + (if link.url in c.data then 0 else 1));
    } else {
      RecordWellFormed(c, links, link, parsed.value);
    }
  }

  lemma LinksGrow(c: Crawl, links: seq<Link>, link: Link, fetches: nat)
    requires WellFormed(c, links) && fetches <= c.fetches + 1
    ensures WellFormed(c.(fetches := fetches), links + [link])
  {
    assert forall l :: l in links ==> l in links + [link];
  }

  lemma RecordWellFormed(c: Crawl, links: seq<Link>, link: Link, a: Article)
    requires WellFormed(c, links) && link.url !in c.data
    requires a.url == link.url && a.category == link.category
    ensures WellFormed(Crawl(c.data[link.url := a], c.order + [link.url], c.fetches + 1), links + [link])
  {
    assert forall l :: l in links ==> l in links + [link];
    assert link.url !in c.order;
    var order := c.order + [link.url];
    assert forall i :: 0 <= i < |c.order| ==> order[i] == c.order[i];
  }

  /** `after` keeps everything `before` recorded, unchanged and in the
      same order, and has fetched at least as often. */
  ghost predicate Extends(before: Crawl, after: Crawl) {
    && (forall u :: u in before.data ==> u in after.data && after.data[u] == before.data[u])
    && |before.order| <= |after.order| && after.order[..|before.order|] == before.order
    && before.fetches <= after.fetches
  }

  lemma RecordExtends(c: Crawl, url: string, parsed: Option<Article>)
    requires url !in c.data
    ensures Extends(c, Record(c, url, parsed))
  {
  }

  lemma ExtendsTransitive(x: Crawl, y: Crawl, z: Crawl)
    requires Extends(x, y) && Extends(y, z)
    ensures Extends(x, z)
  {
    assert z.order[..|x.order|] == z.order[..|y.order|][..|x.order|];
  }

  /** A URL's first successful parse is the one kept: what a prefix of the
      links recorded is still recorded, unchanged and in the same order,
      after the rest of the links. */
  lemma {:induction false} FirstParseKept(a: seq<Link>, b: seq<Link>, fetch: nat -> ArticlePage)
    ensures Extends(CrawlLinks(a, fetch), CrawlLinks(a + b, fetch))
    decreases |b|
  {
    if b == [] {
      assert a + b == a;
    } else {
      var init, last := b[..|b| - 1], b[|b| - 1];
      assert a + b == (a + init) + [last];
      CrawlSnoc(a + init, last, fetch);
      FirstParseKept(a, init, fetch);
      var c := CrawlLinks(a + init, fetch);
      if last.url !in c.data {
        RecordExtends(c, last.url, ParseArticle(last.url, last.category, fetch(c.fetches)));
      }
      ExtendsTransitive(CrawlLinks(a, fetch), c, CrawlLinks(a + b, fetch));
    }
  }

  /** A link whose URL has no record yet is fetched: a URL whose parse
      failed is tried again at its next link. */
  lemma UnrecordedIsFetched(links: seq<Link>, link: Link, fetch: nat -> ArticlePage)
    requires link.url !in CrawlLinks(links, fetch).data
    ensures CrawlLinks(links + [link], fetch).fetches == CrawlLinks(links, fetch).fetches + 1
  {
    assert (links + [link])[..|links|] == links;
  }

  /** A link whose URL already has a record is not fetched again. */
  lemma RecordedIsSkipped(links: seq<Link>, link: Link, fetch: nat -> ArticlePage)
    requires link.url in CrawlLinks(links, fetch).data
    ensures CrawlLinks(links + [link], fetch) == CrawlLinks(links, fetch)
  {
    assert (links + [link])[..|links|] == links;
  }

  /** The inner loop of `scrape_all_articles`: the links of one category
      visited in order, continuing the crawl so far. */
  method VisitLinks(links: seq<Link>, fetch: nat -> ArticlePage, ghost seen: seq<Link>,
                    data0: map<string, Article>, order0: seq<string>, fetches0: nat, visited0: set<string>)
    returns (data: map<string, Article>, order: seq<string>, fetches: nat, visited: set<string>)
    requires visited0 == data0.Keys
    requires Crawl(data0, order0, fetches0) == CrawlLinks(seen, fetch)
    ensures visited == data.Keys
    ensures Crawl(data, order, fetches) == CrawlLinks(seen + links, fetch)
  {
    data, order, fetches, visited := data0, order0, fetches0, visited0;
    ghost var done := seen;
    for j := 0 to |links|
      invariant done == seen + links[..j]
      invariant visited == data.Keys
      invariant Crawl(data, order, fetches) == CrawlLinks(done, fetch)
    {
      data, order, fetches, visited := VisitOne(links[j], fetch, done, data, order, fetches, visited);
      done := done + [links[j]];
    }
    assert links[..|links|] == links;
  }

  /** One pass of the inner loop: skip a URL already visited, otherwise
      fetch it once and record the article when the page parses. */
  method VisitOne(link: Link, fetch: nat -> ArticlePage, ghost done: seq<Link>,
                  data0: map<string, Article>, order0: seq<string>, fetches0: nat, visited0: set<string>)
    returns (data: map<string, Article>, order: seq<string>, fetches: nat, visited: set<string>)
    requires visited0 == data0.Keys
    requires Crawl(data0, order0, fetches0) == CrawlLinks(done, fetch)
    ensures visited == data.Keys
    ensures Crawl(data, order, fetches) == CrawlLinks(done + [link], fetch)
  {
    CrawlSnoc(done, link, fetch);
    if link.url in visited0 {
      data, order, fetches, visited := data0, order0, fetches0, visited0;
    } else {
      var parsed := ParseArticle(link.url, link.category, fetch(fetches0));
      data, order, fetches, visited := RecordParsed(link.url, parsed, data0, order0, fetches0, visited0);
    }
  }

  /** After the fetch of a URL not yet visited: one more fetch, and the
      record stored when the page parsed. */
  method RecordParsed(url: string, parsed: Option<Article>,
               data0: map<string, Article>, order0: seq<string>, fetches0: nat, visited0: set<string>)
    returns (data: map<string, Article>, order: seq<string>, fetches: nat, visited: set<string>)
    requires visited0 == data0.Keys
    ensures visited == data.Keys
    ensures Crawl(data, order, fetches) == Record(Crawl(data0, order0, fetches0), url, parsed)
  {
    data, order, visited := data0, order0, visited0;
    if parsed.Some? {
      data, order := data0[url := parsed.value], order0 + [url];
      visited := visited0 + {url};
    }
    fetches := fetches0 + 1;
  }

  /** `scrape_all_articles()`, given the home page's link targets, the
      category pages and the scripted article fetches. Besides the records
      (in the dict's insertion order) it returns the category order the
      `set` produced and the number of article fetches, each followed by a
      half-second pause in the source. */
  method ScrapeAllArticles(homeHrefs: seq<string>, listing: string -> CategoryPage, fetch: nat -> ArticlePage)
    returns (categories: seq<string>, data: map<string, Article>, order: seq<string>, fetches: nat)
    ensures Distinct(categories)
    ensures forall c :: c in categories <==>
              exists h :: h in homeHrefs && StartsWith(h, CategoryPrefix) && c == BaseUrl + h
    ensures Crawl(data, order, fetches) == CrawlLinks(AllLinks(categories, listing), fetch)
  {
    categories := GetCategories(homeHrefs);
    data, order, fetches := map[], [], 0;
    var visited: set<string> := {};
    for i := 0 to |categories|
      invariant visited == data.Keys
      invariant Crawl(data, order, fetches) == CrawlLinks(AllLinks(categories[..i], listing), fetch)
    {
      assert categories[..i + 1][..i] == categories[..i];
      var articles := GetArticlesFromCategory(listing(categories[i]));
      data, order, fetches, visited :=
        VisitLinks(articles, fetch, AllLinks(categories[..i], listing), data, order, fetches, visited);
    }
    assert categories[..|categories|] == categories;
  }

  // ---------------------------------------------------------------------
  // Article identifiers of canonical URLs

  /** The base URL holds no "/article/", not even running into what follows it. */
  lemma BaseHasNoMarker(rest: string)
    ensures forall j :: 0 <= j < |BaseUrl| ==> !StartsWith((BaseUrl + rest)[j..], ArticleMarker)
  {
    var url := BaseUrl + rest;
    forall j | 0 <= j < |BaseUrl|
      ensures !StartsWith(url[j..], ArticleMarker)
    {
      if j == 6 || j == 7 {
        assert url[j + 1] != ArticleMarker[1];
      } else {
        assert url[j] == BaseUrl[j] != '/';
      }
    }
  }

  /** In an article URL as the crawler builds it, the first "/article/"
      is the one right after the base URL. */
  lemma FindCanonicalMarker(slug: string)
    ensures Find(BaseUrl + ArticleMarker + slug, ArticleMarker) == Some(|BaseUrl|)
  {
    var url := BaseUrl + ArticleMarker + slug;
    BaseHasNoMarker(ArticleMarker + slug);
    assert url == BaseUrl + (ArticleMarker + slug);
    assert url[|BaseUrl|..][..|ArticleMarker|] == ArticleMarker;
    ContainsAt(url, ArticleMarker, |BaseUrl|);
  }

  /** For an article URL as the crawler builds it, the identifier is the
      slug up to its first '-'. */
  lemma ArticleIdOfCanonical(slug: string)
    requires !Contains(slug, ArticleMarker)
    ensures ArticleId(BaseUrl + ArticleMarker + slug) == Some(Before(slug, '-'))
  {
    var url := BaseUrl + ArticleMarker + slug;
    FindCanonicalMarker(slug);
    assert url[|BaseUrl| + |ArticleMarker|..] == slug;
  }

  /** A "/article" link whose target lacks "/article/" (such as
      "/articles/...") yields no record. */
  lemma MarkerRequired(url: string, category: string, page: ArticlePage)
    requires !Contains(url, ArticleMarker)
    ensures ParseArticle(url, category, page) == None
  {
  }

  /** A `time.lu` text "Last updated on <date>" gives the date. */
  lemma LastUpdatedOfStamp(date: string)
    requires !Contains(date, UpdatedPrefix)
    ensures LastUpdatedText(Some(UpdatedPrefix + date)) == date
  {
    RemoveAllPrefix(UpdatedPrefix, date);
  }
}
