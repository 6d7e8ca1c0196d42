/**
 * The brand-site collector. A fetched page is given as the elements each of
 * the nine selectors matches, in document order, with the texts and
 * attributes the extraction reads already pulled out of each element.
 */
module Scraper {
  import opened Options
  import opened Text
  import opened Domain
  import opened Constants
  import opened Store

  /** The generic selectors, tried in this order. */
  const SELECTORS: seq<string> := [
    "article",
    ".article",
    ".news-item",
    ".product-item",
    ".card",
    ".post",
    "[class*=\"article\"]",
    "[class*=\"news\"]",
    "[class*=\"product\"]"]

  /**
   * What the extraction reads from one matched element: the text of its first
   * heading-like descendant, the text of its first anchor, the text of its
   * first paragraph-like descendant, the first anchor's `href`, and the first
   * image's `src` and `data-src` (`None` when the element or attribute is absent).
   */
  datatype Element = Element(
    heading: string,
    anchorText: string,
    paragraph: string,
    href: Option<string>,
    imgSrc: Option<string>,
    imgDataSrc: Option<string>)

  /** For each selector, in order, the elements it matches. */
  type Page = seq<seq<Element>>

  /** A record extracted from a page, before it is upserted. */
  datatype Scraped = Scraped(
    title: string,
    summary: string,
    content: string,
    url: string,
    imageUrl: Option<string>,
    country: string,
    brand: Option<string>,
    company: Option<string>,
    category: Category)

  /** The trimmed heading text, or the trimmed anchor text when that is empty. */
  function ElementTitle(el: Element): string {
    if Trim(el.heading) != "" then Trim(el.heading) else Trim(el.anchorText)
  }

  /** Titles that are empty or shorter than five characters are dropped. */
  predicate AcceptedTitle(title: string) {
    title != "" && |title| >= 5
  }

  /** The link: the element's `href`, else the target url; a root-relative result gets the origin in front. */
  function ResolveLink(href: Option<string>, target: ScrapeTarget): (u: string)
    ensures !Truthy(href) && !StartsWith(target.url, "/") ==> u == target.url
    ensures Truthy(href) && StartsWith(href.value, "/") ==> u == target.origin + href.value
    ensures Truthy(href) && !StartsWith(href.value, "/") ==> u == href.value
  {
    var full := Or(href, target.url);
    if StartsWith(full, "/") then target.origin + full else full
  }

  /** The image: `src`, else `data-src`; kept when it starts with "http", otherwise put after the origin. */
  function ResolveImage(src: Option<string>, dataSrc: Option<string>, origin: string): (r: Option<string>)
    ensures r.None? <==> !Truthy(src) && !Truthy(dataSrc)
    ensures Truthy(src) ==> r == Some(if StartsWith(src.value, "http") then src.value else origin + src.value)
    ensures !Truthy(src) && Truthy(dataSrc) ==>
      r == Some(if StartsWith(dataSrc.value, "http") then dataSrc.value else origin + dataSrc.value)
  {
    if Truthy(src) || Truthy(dataSrc) then
      var image := Or(src, dataSrc.GetOr(""));
      Some(if StartsWith(image, "http") then image else origin + image)
    else
      None
  }

  /** Scraped items are underwear when the title says so, and pads otherwise. */
  function ScrapedCategory(title: string): (c: Category)
    ensures c != General
    ensures c == Underwear <==> Contains(Lower(title), "ショーツ") || Contains(Lower(title), "underwear")
  {
    if Contains(Lower(title), "ショーツ") || Contains(Lower(title), "underwear") then Underwear else Pad
  }

  /** The body of the `.each` callback: the record an element gives, or `None` when it is skipped. */
  function ScrapeElement(el: Element, target: ScrapeTarget): Option<Scraped> {
    var title := ElementTitle(el);
    if !AcceptedTitle(title) then None
    else
      var summary := Trim(el.paragraph);
      var body := if summary != "" then summary else title;
      Some(Scraped(
        title,
        body,
        body,
        ResolveLink(el.href, target),
        ResolveImage(el.imgSrc, el.imgDataSrc, target.origin),
        target.country,
        Some(target.brand),
        Some(target.company),
        ScrapedCategory(title)))
  }

  /**
   * An element is skipped exactly when its title is too short; otherwise its
   * record has that title, the paragraph (or the title) as both summary and
   * content, the resolved link and image, the target's country, brand and
   * company, and a category read from the title alone.
   */
  lemma ScrapeElementFields(el: Element, target: ScrapeTarget)
    ensures ScrapeElement(el, target).None? <==> !AcceptedTitle(ElementTitle(el))
    ensures ScrapeElement(el, target).Some? ==>
      var s := ScrapeElement(el, target).value;
      && s.title == ElementTitle(el) && |s.title| >= 5
      && s.summary == s.content
      && s.summary == (if Trim(el.paragraph) != "" then Trim(el.paragraph) else s.title)
      && s.url == ResolveLink(el.href, target)
      && s.imageUrl == ResolveImage(el.imgSrc, el.imgDataSrc, target.origin)
      && s.country == target.country
      && s.brand == Some(target.brand) && s.company == Some(target.company)
      && s.category == ScrapedCategory(s.title) && s.category != General
  {
  }

  /** The records one selector's elements give, in document order. */
  function AcceptedOf(els: seq<Element>, target: ScrapeTarget): seq<Scraped>
    decreases |els|
  {
    if els == [] then []
    else
      var r := ScrapeElement(els[|els| - 1], target);
      AcceptedOf(els[..|els| - 1], target) + (if r.Some? then [r.value] else [])
  }

  /** The elements selector `k` matches; none when the page lists fewer selectors. */
  function MatchesOf(page: Page, k: nat): seq<Element> {
    if k < |page| then page[k] else []
  }

  /** Selectors from `k` on: the records of the first one that gives any, or none. */
  function ExtractFrom(page: Page, target: ScrapeTarget, k: nat): seq<Scraped>
    decreases |SELECTORS| - k
  {
    if k >= |SELECTORS| then []
    else
      var found := AcceptedOf(MatchesOf(page, k), target);
      if found != [] then found else ExtractFrom(page, target, k + 1)
  }

  /** What `scrapePage` returns: nothing when the fetch or the parse fails. */
  function PageRecords(fetched: Option<Page>, target: ScrapeTarget): seq<Scraped> {
    if fetched.Some? then ExtractFrom(fetched.value, target, 0) else []
  }

  /** The first selector that gives a record is the only one used; later selectors are not looked at. */
  lemma {:induction false} FirstSelectorWins(page: Page, target: ScrapeTarget, i: nat)
    requires i < |SELECTORS| && AcceptedOf(MatchesOf(page, i), target) != []
    requires forall j :: 0 <= j < i ==> AcceptedOf(MatchesOf(page, j), target) == []
    ensures ExtractFrom(page, target, 0) == AcceptedOf(MatchesOf(page, i), target)
  {
    var k := i;
    while k > 0
      invariant 0 <= k <= i
      invariant ExtractFrom(page, target, k) == AcceptedOf(MatchesOf(page, i), target)
    {
      k := k - 1;
    }
  }

  /** A page on which no selector gives a record yields nothing. */
  lemma {:induction false} NoSelectorNothing(page: Page, target: ScrapeTarget, k: nat)
    requires forall j :: k <= j < |SELECTORS| ==> AcceptedOf(MatchesOf(page, j), target) == []
    ensures ExtractFrom(page, target, k) == []
    decreases |SELECTORS| - k
  {
    if k < |SELECTORS| {
      NoSelectorNothing(page, target, k + 1);
    }
  }

  /** Every record of a selector is the record of one of its elements, with the target's metadata and a pad or underwear category. */
  lemma {:induction false} AcceptedOfFaithful(els: seq<Element>, target: ScrapeTarget)
    ensures |AcceptedOf(els, target)| <= |els|
    ensures forall s :: s in AcceptedOf(els, target) ==>
      exists el :: el in els && ScrapeElement(el, target) == Some(s)
    decreases |els|
  {
    if els != [] {
      var n := |els| - 1;
      AcceptedOfFaithful(els[..n], target);
      forall s | s in AcceptedOf(els, target) ensures exists el :: el in els && ScrapeElement(el, target) == Some(s) {
        if s in AcceptedOf(els[..n], target) {
          var el :| el in els[..n] && ScrapeElement(el, target) == Some(s);
          assert el in els;
        } else {
          assert ScrapeElement(els[n], target) == Some(s);
        }
      }
    }
  }

  /** Whatever a page yields comes from one selector's elements. */
  lemma {:induction false} ExtractFromOneSelector(page: Page, target: ScrapeTarget, k: nat)
    ensures ExtractFrom(page, target, k) == [] ||
      exists i :: k <= i < |SELECTORS| && ExtractFrom(page, target, k) == AcceptedOf(MatchesOf(page, i), target)
    decreases |SELECTORS| - k
  {
    if k < |SELECTORS| && AcceptedOf(MatchesOf(page, k), target) == [] {
      ExtractFromOneSelector(page, target, k + 1);
    }
  }

  /** The `.each` loop over one selector's elements. */
  method SelectorRecords(els: seq<Element>, target: ScrapeTarget) returns (found: seq<Scraped>)
    ensures found == AcceptedOf(els, target)
  {
    found := [];
    for j := 0 to |els|
      invariant found == AcceptedOf(els[..j], target)
    {
      assert els[..j + 1][..j] == els[..j];
      var r := ScrapeElement(els[j], target);
      if r.Some? {
        found := found + [r.value];
      }
    }
    assert els[..|els|] == els;
  }

  /**
   * `scrapePage`: `fetched` is the parsed page, `None` when the request
   * fails. The selector loop stops at the first selector that gave a record.
   */
  method ScrapePage(target: ScrapeTarget, fetched: Option<Page>) returns (articles: seq<Scraped>)
    ensures articles == PageRecords(fetched, target)
  {
    articles := [];
    if fetched.None? {
      return;
    }
    var page := fetched.value;
    var k := 0;
    while k < |SELECTORS|
      invariant 0 <= k <= |SELECTORS|
      invariant articles == []
      invariant ExtractFrom(page, target, 0) == ExtractFrom(page, target, k)
    {
      articles := SelectorRecords(MatchesOf(page, k), target);
      if |articles| > 0 {
        return;
      }
      k := k + 1;
    }
  }

  /** The record upserted for a scraped item: source "scraping", stamped with the collection time. */
  function ToCandidate(s: Scraped, now: int): (c: Candidate)
    ensures c.source == Scraping && c.publishedAt == now
    ensures c.title == s.title && c.summary == s.summary && c.content == s.content && c.url == s.url
    ensures c.category == s.category && c.country == s.country && c.brand == s.brand && c.company == s.company
  {
    Candidate(s.title, s.summary, s.content, s.url, s.imageUrl, s.country, s.brand, s.company,
              s.category, Scraping, now)
  }

  function ToCandidates(ss: seq<Scraped>, now: int): (cs: seq<Candidate>)
    ensures |cs| == |ss|
    ensures forall i :: 0 <= i < |ss| ==> cs[i] == ToCandidate(ss[i], now)
  {
    seq(|ss|, i requires 0 <= i < |ss| => ToCandidate(ss[i], now))
  }

  lemma ToCandidatesSnoc(ss: seq<Scraped>, now: int, j: nat)
    requires j < |ss|
    ensures ToCandidates(ss[..j + 1], now) == ToCandidates(ss[..j], now) + [ToCandidate(ss[j], now)]
  {
    var l := ToCandidates(ss[..j + 1], now);
    var r := ToCandidates(ss[..j], now) + [ToCandidate(ss[j], now)];
    assert |l| == |r|;
    forall i | 0 <= i < |l| ensures l[i] == r[i] {
      if i < j {
        assert ss[..j + 1][i] == ss[..j][i];
      }
    }
  }

  /** The records one target contributes: its page's records, or none when the fetch fails. */
  function PageCandidates(t: ScrapeTarget, fetchPage: ScrapeTarget -> Option<Page>, now: int): seq<Candidate> {
    ToCandidates(PageRecords(fetchPage(t), t), now)
  }

  function PerTarget(fetchPage: ScrapeTarget -> Option<Page>, now: int): ScrapeTarget -> seq<Candidate> {
    t => PageCandidates(t, fetchPage, now)
  }

  /** The lists `f` gives for the elements of `xs`, one after another. */
  function ConcatMap<T, U>(xs: seq<T>, f: T -> seq<U>): seq<U>
    decreases |xs|
  {
    if xs == [] then [] else ConcatMap(xs[..|xs| - 1], f) + f(xs[|xs| - 1])
  }

  lemma ConcatMapStep<T, U>(xs: seq<T>, f: T -> seq<U>, k: nat)
    requires k < |xs|
    ensures ConcatMap(xs[..k + 1], f) == ConcatMap(xs[..k], f) + f(xs[k])
  {
    assert xs[..k + 1][..k] == xs[..k];
  }

  lemma {:induction false} ConcatMapAppend<T, U>(a: seq<T>, b: seq<T>, f: T -> seq<U>)
    ensures ConcatMap(a + b, f) == ConcatMap(a, f) + ConcatMap(b, f)
    decreases |b|
  {
    if b == [] {
      assert a + b == a;
    } else {
      var n := |b| - 1;
      ConcatMapAppend(a, b[..n], f);
      assert (a + b)[..|a + b| - 1] == a + b[..n];
      assert (a + b)[|a + b| - 1] == b[n];
    }
  }

  lemma {:induction false} ConcatMapMember<T, U>(xs: seq<T>, f: T -> seq<U>, u: U)
    requires u in ConcatMap(xs, f)
    ensures exists i :: 0 <= i < |xs| && u in f(xs[i])
    decreases |xs|
  {
    var n := |xs| - 1;
    if u in ConcatMap(xs[..n], f) {
      ConcatMapMember(xs[..n], f, u);
      var i :| 0 <= i < n && u in f(xs[..n][i]);
      assert xs[..n][i] == xs[i];
    } else {
      assert u in f(xs[n]);
    }
  }

  /** Everything a run over `targets` upserts, in order. */
  function ScrapeCandidates(targets: seq<ScrapeTarget>, fetchPage: ScrapeTarget -> Option<Page>, now: int): seq<Candidate> {
    ConcatMap(targets, PerTarget(fetchPage, now))
  }

  /** A run's records grow by one target's records at a time. */
  lemma ScrapeCandidatesStep(targets: seq<ScrapeTarget>, fetchPage: ScrapeTarget -> Option<Page>, now: int, k: nat)
    requires k < |targets|
    ensures ScrapeCandidates(targets[..k + 1], fetchPage, now) ==
      ScrapeCandidates(targets[..k], fetchPage, now) + ToCandidates(PageRecords(fetchPage(targets[k]), targets[k]), now)
  {
    ConcatMapStep(targets, PerTarget(fetchPage, now), k);
  }

  /** An element whose list is empty contributes nothing. */
  lemma ConcatMapSkip<T, U>(a: seq<T>, x: T, b: seq<T>, f: T -> seq<U>)
    requires f(x) == []
    ensures ConcatMap(a + [x] + b, f) == ConcatMap(a, f) + ConcatMap(b, f)
  {
    ConcatMapSingle(x, f);
    ConcatMapAppend(a, [x], f);
    var left := ConcatMap(a, f);
    assert left + [] == left;
    ConcatMapAppend(a + [x], b, f);
  }

  lemma ConcatMapSingle<T, U>(x: T, f: T -> seq<U>)
    ensures ConcatMap([x], f) == f(x)
  {
    assert [x][..0] == [];
    assert ConcatMap([x][..0], f) == [];
  }

  /** A target whose fetch fails adds nothing; the targets after it are still scraped. */
  lemma FailedTargetSkipped(before: seq<ScrapeTarget>, t: ScrapeTarget, after: seq<ScrapeTarget>,
                            fetchPage: ScrapeTarget -> Option<Page>, now: int)
    requires fetchPage(t).None?
    ensures ScrapeCandidates(before + [t] + after, fetchPage, now) ==
      ScrapeCandidates(before, fetchPage, now) + ScrapeCandidates(after, fetchPage, now)
  {
    assert PageRecords(fetchPage(t), t) == [];
    assert PageCandidates(t, fetchPage, now) == [];
    ConcatMapSkip(before, t, after, PerTarget(fetchPage, now));
  }

  /** The records of one target: pad or underwear items from the scraping source, stamped `now`, with the target's metadata. */
  lemma PageCandidatesShape(t: ScrapeTarget, fetchPage: ScrapeTarget -> Option<Page>, now: int, c: Candidate)
    requires c in PageCandidates(t, fetchPage, now)
    ensures c.source == Scraping && c.category != General && c.publishedAt == now && |c.title| >= 5
    ensures c.country == t.country && c.brand == Some(t.brand) && c.company == Some(t.company)
  {
    var recs := PageRecords(fetchPage(t), t);
    var i :| 0 <= i < |recs| && c == ToCandidate(recs[i], now);
    assert recs[i] in recs;
    ExtractFromOneSelector(fetchPage(t).value, t, 0);
    var k :| 0 <= k < |SELECTORS| && recs == AcceptedOf(MatchesOf(fetchPage(t).value, k), t);
    AcceptedOfFaithful(MatchesOf(fetchPage(t).value, k), t);
    var el :| el in MatchesOf(fetchPage(t).value, k) && ScrapeElement(el, t) == Some(recs[i]);
    ScrapeElementFields(el, t);
  }

  /** Every scraped record is a pad or underwear item from the scraping source, stamped `now`, with a title of five or more characters and the metadata of one of the targets. */
  lemma ScrapeCandidatesShape(targets: seq<ScrapeTarget>, fetchPage: ScrapeTarget -> Option<Page>, now: int)
    ensures forall c :: c in ScrapeCandidates(targets, fetchPage, now) ==>
      c.source == Scraping && c.category != General && c.publishedAt == now && |c.title| >= 5
      && exists t :: t in targets && c.country == t.country && c.brand == Some(t.brand) && c.company == Some(t.company)
  {
    var f := PerTarget(fetchPage, now);
    forall c | c in ScrapeCandidates(targets, fetchPage, now)
      ensures c.source == Scraping && c.category != General && c.publishedAt == now && |c.title| >= 5
      ensures exists t :: t in targets && c.country == t.country && c.brand == Some(t.brand) && c.company == Some(t.company)
    {
      ConcatMapMember(targets, f, c);
      var i :| 0 <= i < |targets| && c in f(targets[i]);
      PageCandidatesShape(targets[i], fetchPage, now, c);
    }
  }

  /** Upserting one page's records, continuing the attempt count and the counter of the run so far. */
  method UpsertRecords(articles: seq<Scraped>, now: int, faults: set<nat>, repo: Repository,
                       ghost start: map<string, Candidate>, ghost done: seq<Candidate>, attempt0: nat, total0: nat)
    returns (attempt: nat, total: nat)
    requires attempt0 == |done|
    requires repo.articles == Ingest(start, done, faults).store && total0 == Ingest(start, done, faults).count
    modifies repo
    ensures attempt == |done + ToCandidates(articles, now)|
    ensures repo.articles == Ingest(start, done + ToCandidates(articles, now), faults).store
    ensures total == Ingest(start, done + ToCandidates(articles, now), faults).count
  {
    attempt, total := attempt0, total0;
    ghost var sofar := done;
    for j := 0 to |articles|
      invariant sofar == done + ToCandidates(articles[..j], now)
      invariant attempt == |sofar|
      invariant repo.articles == Ingest(start, sofar, faults).store
      invariant total == Ingest(start, sofar, faults).count
    {
      var c := ToCandidate(articles[j], now);
      ToCandidatesSnoc(articles, now, j);
      IngestSnoc(start, sofar, c, faults);
      var ok := repo.Upsert(c, attempt in faults);
      if ok {
        total := total + 1;
      }
      attempt := attempt + 1;
      sofar := sofar + [c];
    }
    assert articles[..|articles|] == articles;
  }

  /**
   * `collectFromScraping`: every target in order, whatever happened to the
   * previous ones. `fetchPage(t)` is the parsed page of `t` (`None` for a
   * failed request), `now` the collection time, and upsert attempt `i` of the
   * run throws when `i` is in `faults`.
   */
  method CollectFromScraping(fetchPage: ScrapeTarget -> Option<Page>, now: int, faults: set<nat>, repo: Repository)
    returns (total: nat)
    modifies repo
    ensures var run := Ingest(old(repo.articles), ScrapeCandidates(SCRAPE_TARGETS, fetchPage, now), faults);
      repo.articles == run.store && total == run.count
  {
    ghost var start := repo.articles;
    ghost var done: seq<Candidate> := [];
    total := 0;
    var attempt := 0;
    var targets := SCRAPE_TARGETS;
    for ti := 0 to |targets|
      invariant done == ScrapeCandidates(targets[..ti], fetchPage, now)
      invariant attempt == |done|
      invariant repo.articles == Ingest(start, done, faults).store
      invariant total == Ingest(start, done, faults).count
    {
      var target := targets[ti];
      ScrapeCandidatesStep(targets, fetchPage, now, ti);
      var articles := ScrapePage(target, fetchPage(target));
      attempt, total := UpsertRecords(articles, now, faults, repo, start, done, attempt, total);
      done := done + ToCandidates(articles, now);
    }
    assert targets[..|targets|] == targets;
  }
}
