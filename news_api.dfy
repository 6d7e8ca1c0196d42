/**
 * The news-search collector: brand and category detection on an item's text,
 * the fixed query plan (country by keyword), item normalisation, and the
 * upsert loop that counts stored items.
 */
module NewsApi {
  import opened Options
  import opened Text
  import opened Domain
  import opened Constants
  import opened Store

  // ---------------------------------------------------------------- brands

  datatype BrandInfo = BrandInfo(brand: Option<string>, company: Option<string>)

  /** One keyword of the brand table and what it identifies. */
  datatype BrandEntry = BrandEntry(keyword: string, info: BrandInfo)

  const NO_BRAND := BrandInfo(None, None)

  function Known(brand: string, company: string): BrandInfo {
    BrandInfo(Some(brand), Some(company))
  }

  /** The brand table in declaration order; the scan takes the first keyword that occurs. */
  const BRAND_MAP: seq<BrandEntry> := [
    BrandEntry("laurier", Known("ロリエ", "花王")),
    BrandEntry("ロリエ", Known("ロリエ", "花王")),
    BrandEntry("sofy", Known("ソフィ", "ユニ・チャーム")),
    BrandEntry("ソフィ", Known("ソフィ", "ユニ・チャーム")),
    BrandEntry("always", Known("Always", "P&G")),
    BrandEntry("whisper", Known("Whisper", "P&G")),
    BrandEntry("thinx", Known("Thinx", "Thinx Inc.")),
    BrandEntry("modibodi", Known("Modibodi", "Modibodi")),
    BrandEntry("kotex", Known("Kotex", "Kimberly-Clark")),
    BrandEntry("stayfree", Known("Stayfree", "Johnson & Johnson")),
    BrandEntry("nana", Known("Nana", "Essity")),
    BrandEntry("bodyform", Known("Bodyform", "Essity")),
    BrandEntry("libresse", Known("Libresse", "Essity")),
    BrandEntry("elis", Known("エリス", "大王製紙")),
    BrandEntry("エリス", Known("エリス", "大王製紙")),
    BrandEntry("center-in", Known("センターイン", "ユニ・チャーム")),
    BrandEntry("センターイン", Known("センターイン", "ユニ・チャーム")),
    BrandEntry("be-a", Known("Bé-A", "Bé-A Japan")),
    BrandEntry("nagi", Known("Nagi", "BLAST Inc.")),
    BrandEntry("period", NO_BRAND)]

  /** `lowerText.includes(keyword.toLowerCase())`. */
  predicate Hits(lowerText: string, e: BrandEntry) {
    Contains(lowerText, Lower(e.keyword))
  }

  /** The early-return loop over the table. */
  function FirstMatch(entries: seq<BrandEntry>, lowerText: string): (r: BrandInfo)
    ensures r == NO_BRAND || exists i :: 0 <= i < |entries| && Hits(lowerText, entries[i]) && r == entries[i].info
    decreases |entries|
  {
    if entries == [] then NO_BRAND
    else if Hits(lowerText, entries[0]) then entries[0].info
    else FirstMatch(entries[1..], lowerText)
  }

  /** The brand of the first table keyword found in the lower-cased text, or no brand. */
  function DetectBrandAndCompany(text: string): (r: BrandInfo)
    ensures r == NO_BRAND || exists i :: 0 <= i < |BRAND_MAP| && Hits(Lower(text), BRAND_MAP[i]) && r == BRAND_MAP[i].info
  {
    FirstMatch(BRAND_MAP, Lower(text))
  }

  /** The scan returns the entry of the first keyword that occurs. */
  lemma {:induction false} FirstMatchIsFirst(entries: seq<BrandEntry>, t: string, i: nat)
    requires i < |entries| && Hits(t, entries[i])
    requires forall j :: 0 <= j < i ==> !Hits(t, entries[j])
    ensures FirstMatch(entries, t) == entries[i].info
    decreases i
  {
    if i > 0 {
      assert !Hits(t, entries[0]);
      FirstMatchIsFirst(entries[1..], t, i - 1);
    }
  }

  /** With no keyword occurring, the scan gives (null, null). */
  lemma {:induction false} FirstMatchNone(entries: seq<BrandEntry>, t: string)
    requires forall j :: 0 <= j < |entries| ==> !Hits(t, entries[j])
    ensures FirstMatch(entries, t) == NO_BRAND
    decreases |entries|
  {
    if entries != [] {
      assert !Hits(t, entries[0]);
      FirstMatchNone(entries[1..], t);
    }
  }

  /** The least index of a keyword that occurs, given that index `j` occurs. */
  lemma LeastHit(entries: seq<BrandEntry>, t: string, j: nat) returns (i: nat)
    requires j < |entries| && Hits(t, entries[j])
    ensures i <= j && Hits(t, entries[i])
    ensures forall k :: 0 <= k < i ==> !Hits(t, entries[k])
  {
    i := 0;
    while !Hits(t, entries[i])
      invariant i <= j
      invariant forall k :: 0 <= k < i ==> !Hits(t, entries[k])
      decreases j - i
    {
      i := i + 1;
    }
  }

  /** Only the last entry of a table shaped like the brand table maps to (null, null). */
  predicate NullOnlyLast(entries: seq<BrandEntry>) {
    && entries != []
    && entries[|entries| - 1].info == NO_BRAND
    && forall j :: 0 <= j < |entries| - 1 ==> entries[j].info.brand.Some? && entries[j].info.company.Some?
  }

  lemma FirstMatchNull(entries: seq<BrandEntry>, t: string)
    requires NullOnlyLast(entries)
    ensures FirstMatch(entries, t) == NO_BRAND <==> forall j :: 0 <= j < |entries| - 1 ==> !Hits(t, entries[j])
    ensures FirstMatch(entries, t).brand.None? <==> FirstMatch(entries, t).company.None?
  {
    if j :| 0 <= j < |entries| && Hits(t, entries[j]) {
      var i := LeastHit(entries, t, j);
      FirstMatchIsFirst(entries, t, i);
    } else {
      FirstMatchNone(entries, t);
    }
  }

  /**
   * The detected brand is null exactly when none of the first nineteen
   * keywords occurs: a hit on the last keyword, "period", cannot be told
   * apart from no hit at all. Brand and company are null together.
   */
  lemma DetectBrandNull(text: string)
    ensures DetectBrandAndCompany(text) == NO_BRAND <==>
      forall j :: 0 <= j < |BRAND_MAP| - 1 ==> !Hits(Lower(text), BRAND_MAP[j])
    ensures DetectBrandAndCompany(text).brand.None? <==> DetectBrandAndCompany(text).company.None?
  {
    assert NullOnlyLast(BRAND_MAP);
    FirstMatchNull(BRAND_MAP, Lower(text));
  }

  /** Text mentioning ロリエ is ロリエ / 花王, whatever later keywords (such as ソフィ) it also mentions. */
  lemma LaurierFirst(text: string)
    requires Contains(text, "ロリエ")
    ensures DetectBrandAndCompany(text) == Known("ロリエ", "花王")
  {
    LowerKeepsContains(text, "ロリエ");
    assert Lower("ロリエ") == "ロリエ";
    var i := LeastHit(BRAND_MAP, Lower(text), 1);
    FirstMatchIsFirst(BRAND_MAP, Lower(text), i);
  }

  /** Text mentioning both "sofy" and "always" (in any letter case) is ソフィ / ユニ・チャーム unless a ロリエ keyword occurs. */
  lemma SofyBeforeAlways(text: string)
    requires Contains(Lower(text), "sofy") && Contains(Lower(text), "always")
    requires !Contains(Lower(text), "laurier") && !Contains(Lower(text), "ロリエ")
    ensures DetectBrandAndCompany(text) == Known("ソフィ", "ユニ・チャーム")
  {
    assert Lower("laurier") == "laurier";
    assert Lower("ロリエ") == "ロリエ";
    assert Lower("sofy") == "sofy";
    FirstMatchIsFirst(BRAND_MAP, Lower(text), 2);
  }

  // -------------------------------------------------------------- category

  const UNDERWEAR_WORDS: seq<string> := ["underwear", "panties", "ショーツ", "shorts"]
  const PAD_WORDS: seq<string> := ["pad", "napkin", "ナプキン", "パッド"]

  /** Some word of `words` occurs in `t`. */
  predicate MentionsAny(t: string, words: seq<string>) {
    exists w :: w in words && Contains(t, w)
  }

  /** Underwear words take priority over pad words; with neither, the item is general. */
  function DetectCategory(text: string): (c: Category)
    ensures c == Underwear <==> MentionsAny(Lower(text), UNDERWEAR_WORDS)
    ensures c == Pad <==> !MentionsAny(Lower(text), UNDERWEAR_WORDS) && MentionsAny(Lower(text), PAD_WORDS)
    ensures c == General <==> !MentionsAny(Lower(text), UNDERWEAR_WORDS) && !MentionsAny(Lower(text), PAD_WORDS)
  {
    var t := Lower(text);
    if Contains(t, "underwear") || Contains(t, "panties") || Contains(t, "ショーツ") || Contains(t, "shorts") then
      Underwear
    else if Contains(t, "pad") || Contains(t, "napkin") || Contains(t, "ナプキン") || Contains(t, "パッド") then
      Pad
    else
      General
  }

  // ------------------------------------------------------------ query plan

  /** `COUNTRY_LANG_MAP` in its `Object.entries` order: country code and language code. */
  const COUNTRY_LANG_MAP: seq<(string, string)> := [
    ("JP", "jp"), ("US", "us"), ("GB", "gb"), ("FR", "fr"), ("DE", "de"),
    ("SE", "se"), ("IN", "in"), ("KR", "kr"), ("AU", "au"), ("CA", "ca")]

  /** The keywords the collector searches for: the first three. */
  function QueryKeywords(): (ks: seq<string>)
    ensures |ks| == 3 && forall k :: k in ks ==> k in SEARCH_KEYWORDS
  {
    SEARCH_KEYWORDS[..3]
  }

  /** One search request: the country its items are filed under, the `language` parameter and `q`. */
  datatype Query = Query(country: string, language: string, keyword: string)

  function QueryLanguage(langCode: string): string {
    if langCode == "jp" then "ja" else "en"
  }

  /** The requests of one run, country-major, keyword-minor. */
  function Plan(): (p: seq<Query>)
    ensures |p| == 3 * |COUNTRY_LANG_MAP|
  {
    seq(|COUNTRY_LANG_MAP| * 3, i requires 0 <= i < |COUNTRY_LANG_MAP| * 3 =>
      Query(COUNTRY_LANG_MAP[i / 3].0, QueryLanguage(COUNTRY_LANG_MAP[i / 3].1), QueryKeywords()[i % 3]))
  }

  /** The requests are the ten countries times the three keywords, in that order. */
  lemma PlanAt(ci: nat, ki: nat)
    requires ci < |COUNTRY_LANG_MAP| && ki < |QueryKeywords()|
    ensures 3 * ci + ki < |Plan()|
    ensures Plan()[3 * ci + ki] ==
      Query(COUNTRY_LANG_MAP[ci].0, QueryLanguage(COUNTRY_LANG_MAP[ci].1), QueryKeywords()[ki])
  {
    DivModThree(ci, ki);
  }

  /** Index arithmetic of the country-major plan. */
  lemma DivModThree(ci: nat, ki: nat)
    requires ki < 3
    ensures (3 * ci + ki) / 3 == ci && (3 * ci + ki) % 3 == ki
  {
  }

  /** Thirty requests; only JP queries Japanese; the keywords are the first three search keywords. */
  lemma PlanShape()
    ensures |Plan()| == 30
    ensures forall q :: q in Plan() ==> q.language == (if q.country == "JP" then "ja" else "en")
    ensures forall q :: q in Plan() ==> q.country in COUNTRIES && q.keyword in QueryKeywords()
    ensures QueryKeywords() == ["menstrual pad", "sanitary pad", "period underwear"]
  {
    forall q | q in Plan()
      ensures q.language == (if q.country == "JP" then "ja" else "en")
      ensures q.country in COUNTRIES && q.keyword in QueryKeywords()
    {
      var i :| 0 <= i < |Plan()| && Plan()[i] == q;
      assert 0 <= i / 3 < |COUNTRY_LANG_MAP|;
      assert q.country == COUNTRY_LANG_MAP[i / 3].0;
    }
  }

  /** The collector's language map covers exactly the countries of the country tables. */
  lemma CountryLangMapAgrees()
    ensures forall i :: 0 <= i < |COUNTRY_LANG_MAP| ==> COUNTRY_LANG_MAP[i].0 in COUNTRIES
    ensures forall k :: k in COUNTRIES ==> exists i :: 0 <= i < |COUNTRY_LANG_MAP| && COUNTRY_LANG_MAP[i].0 == k
  {
    CountryTablesAgree();
    assert COUNTRY_LANG_MAP[0].0 == "JP" && COUNTRY_LANG_MAP[1].0 == "US";
    assert COUNTRY_LANG_MAP[2].0 == "GB" && COUNTRY_LANG_MAP[3].0 == "FR";
    assert COUNTRY_LANG_MAP[4].0 == "DE" && COUNTRY_LANG_MAP[5].0 == "SE";
    assert COUNTRY_LANG_MAP[6].0 == "IN" && COUNTRY_LANG_MAP[7].0 == "KR";
    assert COUNTRY_LANG_MAP[8].0 == "AU" && COUNTRY_LANG_MAP[9].0 == "CA";
  }

  /** Each scrape target's brand and company also appear together in the brand table. */
  lemma ScrapeTargetsInBrandMap()
    ensures forall i :: 0 <= i < |SCRAPE_TARGETS| ==>
      exists j :: 0 <= j < |BRAND_MAP| && BRAND_MAP[j].info == Known(SCRAPE_TARGETS[i].brand, SCRAPE_TARGETS[i].company)
  {
    assert BRAND_MAP[0].info == Known(SCRAPE_TARGETS[0].brand, SCRAPE_TARGETS[0].company);
    assert BRAND_MAP[2].info == Known(SCRAPE_TARGETS[1].brand, SCRAPE_TARGETS[1].company);
    assert BRAND_MAP[4].info == Known(SCRAPE_TARGETS[2].brand, SCRAPE_TARGETS[2].company);
    assert BRAND_MAP[6].info == Known(SCRAPE_TARGETS[3].brand, SCRAPE_TARGETS[3].company);
    assert BRAND_MAP[7].info == Known(SCRAPE_TARGETS[4].brand, SCRAPE_TARGETS[4].company);
  }

  // ---------------------------------------------------------- normalisation

  /** One item of a search response; absent JSON fields are `None`. */
  datatype Item = Item(
    title: Option<string>,
    description: Option<string>,
    content: Option<string>,
    url: Option<string>,
    urlToImage: Option<string>,
    publishedAt: int)

  datatype Response = Response(status: string, articles: seq<Item>)

  /** Items without a title or a url are skipped. */
  predicate Usable(item: Item) {
    Truthy(item.title) && Truthy(item.url)
  }

  /** The text the classifiers read: title, description and content separated by spaces. */
  function FullText(item: Item): string {
    item.title.GetOr("") + " " + Or(item.description, "") + " " + Or(item.content, "")
  }

  /** The record created for a usable item found by a query filed under `country`. */
  function Normalise(item: Item, country: string): (c: Candidate)
    requires Usable(item)
    ensures c.title == item.title.value && c.url == item.url.value && c.country == country
    ensures c.summary == Or(item.description, c.title) && c.summary != ""
    ensures c.content == Or(item.content, Or(item.description, ""))
    ensures c.source == NewsApi
  {
    var info := DetectBrandAndCompany(FullText(item));
    Candidate(
      item.title.value,
      Or(item.description, item.title.value),
      Or(item.content, Or(item.description, "")),
      item.url.value,
      item.urlToImage,
      country,
      info.brand,
      info.company,
      DetectCategory(FullText(item)),
      NewsApi,
      item.publishedAt)
  }

  /** The records built from a response's items, in response order. */
  function Normalised(items: seq<Item>, country: string): seq<Candidate>
    decreases |items|
  {
    if items == [] then []
    else
      var last := items[|items| - 1];
      Normalised(items[..|items| - 1], country) + (if Usable(last) then [Normalise(last, country)] else [])
  }

  /** One more item of a response adds its record exactly when it is usable. */
  lemma NormalisedStep(items: seq<Item>, country: string, j: nat)
    requires j < |items|
    ensures Normalised(items[..j + 1], country)
         == Normalised(items[..j], country) + (if Usable(items[j]) then [Normalise(items[j], country)] else [])
  {
    assert items[..j + 1][..j] == items[..j];
  }

  /** What one request contributes: nothing when it throws or its status is not "ok". */
  function QueryCandidates(q: Query, response: Option<Response>): seq<Candidate> {
    if response.Some? && response.value.status == "ok" then Normalised(response.value.articles, q.country)
    else []
  }

  /** Everything a run upserts, in order, given the answer `fetch` gives to each request. */
  function Candidates(fetch: Query -> Option<Response>, qs: seq<Query>): seq<Candidate>
    decreases |qs|
  {
    if qs == [] then []
    else Candidates(fetch, qs[..|qs| - 1]) + QueryCandidates(qs[|qs| - 1], fetch(qs[|qs| - 1]))
  }

  /**
   * Every record built from a response is complete (non-empty title, url and
   * summary), carries the query's country, comes from a usable item of that
   * response, and is classified from the item's text.
   */
  lemma {:induction false} NormalisedFaithful(items: seq<Item>, country: string)
    ensures |Normalised(items, country)| <= |items|
    ensures forall c :: c in Normalised(items, country) ==>
      c.title != "" && c.url != "" && c.summary != "" && c.country == country && c.source == NewsApi
    ensures forall c :: c in Normalised(items, country) ==>
      exists item :: item in items && Usable(item) && c == Normalise(item, country)
    decreases |items|
  {
    if items != [] {
      var n := |items| - 1;
      NormalisedFaithful(items[..n], country);
      forall c | c in Normalised(items, country)
        ensures exists item :: item in items && Usable(item) && c == Normalise(item, country)
      {
        if c in Normalised(items[..n], country) {
          var item :| item in items[..n] && Usable(item) && c == Normalise(item, country);
          assert item in items;
        } else {
          assert c == Normalise(items[n], country);
        }
      }
    }
  }

  /** A response whose every item is usable yields one record per item, in order. */
  lemma {:induction false} NormalisedAllUsable(items: seq<Item>, country: string)
    requires forall i :: 0 <= i < |items| ==> Usable(items[i])
    ensures |Normalised(items, country)| == |items|
    ensures forall i :: 0 <= i < |items| ==> Normalised(items, country)[i] == Normalise(items[i], country)
    decreases |items|
  {
    if items != [] {
      var n := |items| - 1;
      NormalisedAllUsable(items[..n], country);
      NormalisedStep(items, country, n);
      assert items[..n + 1] == items;
      forall i | 0 <= i < |items| ensures Normalised(items, country)[i] == Normalise(items[i], country) {
        if i < n {
          assert items[..n][i] == items[i];
        }
      }
    }
  }

  /** Every record of a run carries the country of the request it came from, and nothing comes from a failed request. */
  lemma {:induction false} CandidatesFromPlan(fetch: Query -> Option<Response>, qs: seq<Query>)
    ensures forall c :: c in Candidates(fetch, qs) ==>
      exists q :: q in qs && fetch(q).Some? && fetch(q).value.status == "ok" && c.country == q.country
    decreases |qs|
  {
    if qs != [] {
      var n := |qs| - 1;
      var q := qs[n];
      CandidatesFromPlan(fetch, qs[..n]);
      forall c | c in Candidates(fetch, qs)
        ensures exists q :: q in qs && fetch(q).Some? && fetch(q).value.status == "ok" && c.country == q.country
      {
        if c in Candidates(fetch, qs[..n]) {
          var q' :| q' in qs[..n] && fetch(q').Some? && fetch(q').value.status == "ok" && c.country == q'.country;
          assert q' in qs;
        } else {
          assert c in QueryCandidates(q, fetch(q));
          NormalisedFaithful(fetch(q).value.articles, q.country);
        }
      }
    }
  }

  // -------------------------------------------------------------- collector

  /** A run's records grow by one request's records at a time. */
  lemma CandidatesStep(fetch: Query -> Option<Response>, qs: seq<Query>, k: nat)
    requires k < |qs|
    ensures Candidates(fetch, qs[..k + 1]) == Candidates(fetch, qs[..k]) + QueryCandidates(qs[k], fetch(qs[k]))
  {
    assert qs[..k + 1][..k] == qs[..k];
  }

  /**
   * The inner loop of `collectFromNewsAPI` over one "ok" response: every
   * usable item is normalised and upserted. `start` and `done` are the store
   * before the run and the records upserted so far in it.
   */
  method UpsertItems(items: seq<Item>, countryCode: string, faults: set<nat>, repo: Repository,
                     ghost start: map<string, Candidate>, ghost done: seq<Candidate>, attempt0: nat, total0: nat)
    returns (attempt: nat, total: nat)
    requires attempt0 == |done|
    requires repo.articles == Ingest(start, done, faults).store && total0 == Ingest(start, done, faults).count
    modifies repo
    ensures attempt == |done + Normalised(items, countryCode)|
    ensures repo.articles == Ingest(start, done + Normalised(items, countryCode), faults).store
    ensures total == Ingest(start, done + Normalised(items, countryCode), faults).count
  {
    attempt, total := attempt0, total0;
    ghost var sofar := done;
    for j := 0 to |items|
      invariant sofar == done + Normalised(items[..j], countryCode)
      invariant attempt == |sofar|
      invariant repo.articles == Ingest(start, sofar, faults).store
      invariant total == Ingest(start, sofar, faults).count
    {
      NormalisedStep(items, countryCode, j);
      var item := items[j];
      if Usable(item) {
        var c := Normalise(item, countryCode);
        IngestSnoc(start, sofar, c, faults);
        var ok := repo.Upsert(c, attempt in faults);
        if ok {
          total := total + 1;
        }
        attempt := attempt + 1;
        sofar := sofar + [c];
      }
    }
    assert items[..|items|] == items;
  }

  /**
   * The requests for the country at index `ci` of the language map, one per
   * keyword, with the upserts of their usable items.
   */
  method QueryCountry(ci: nat, fetch: Query -> Option<Response>, faults: set<nat>, repo: Repository,
                      ghost start: map<string, Candidate>, ghost done0: seq<Candidate>, attempt0: nat, total0: nat)
    returns (ghost done: seq<Candidate>, attempt: nat, total: nat)
    requires ci < |COUNTRY_LANG_MAP|
    requires done0 == Candidates(fetch, Plan()[..3 * ci]) && attempt0 == |done0|
    requires repo.articles == Ingest(start, done0, faults).store && total0 == Ingest(start, done0, faults).count
    modifies repo
    ensures done == Candidates(fetch, Plan()[..3 * ci + 3]) && attempt == |done|
    ensures repo.articles == Ingest(start, done, faults).store && total == Ingest(start, done, faults).count
  {
    done, attempt, total := done0, attempt0, total0;
    var keywords := QueryKeywords();
    var (countryCode, langCode) := COUNTRY_LANG_MAP[ci];
    for ki := 0 to |keywords|
      invariant done == Candidates(fetch, Plan()[..3 * ci + ki])
      invariant attempt == |done|
      invariant repo.articles == Ingest(start, done, faults).store
      invariant total == Ingest(start, done, faults).count
    {
      var q := Query(countryCode, QueryLanguage(langCode), keywords[ki]);
      PlanAt(ci, ki);
      CandidatesStep(fetch, Plan(), 3 * ci + ki);
      var response := fetch(q);
      if response.Some? && response.value.status == "ok" {
        attempt, total := UpsertItems(response.value.articles, countryCode, faults, repo, start, done, attempt, total);
        done := done + Normalised(response.value.articles, countryCode);
      }
    }
  }

  /**
   * `collectFromNewsAPI`. Without an API key nothing is queried and 0 is
   * returned. Otherwise every request of the plan is sent; `fetch(q)` is its
   * answer, `None` standing for a throw. Upsert attempt number `i` of the
   * run throws when `i` is in `faults`.
   */
  method CollectFromNewsApi(apiKey: Option<string>, fetch: Query -> Option<Response>, faults: set<nat>, repo: Repository)
    returns (total: nat)
    modifies repo
    ensures !Truthy(apiKey) ==> total == 0 && repo.articles == old(repo.articles)
    ensures Truthy(apiKey) ==>
      var run := Ingest(old(repo.articles), Candidates(fetch, Plan()), faults);
      repo.articles == run.store && total == run.count
  {
    if !Truthy(apiKey) {
      return 0;
    }
    ghost var start := repo.articles;
    ghost var done: seq<Candidate> := [];
    total := 0;
    var attempt := 0;
    for ci := 0 to |COUNTRY_LANG_MAP|
      invariant done == Candidates(fetch, Plan()[..3 * ci])
      invariant attempt == |done|
      invariant repo.articles == Ingest(start, done, faults).store
      invariant total == Ingest(start, done, faults).count
    {
      done, attempt, total := QueryCountry(ci, fetch, faults, repo, start, done, attempt, total);
    }
    assert Plan()[..3 * |COUNTRY_LANG_MAP|] == Plan();
  }
}
