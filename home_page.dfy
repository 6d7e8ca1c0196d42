/**
 * The listing page's own state: the current page number and the query
 * string it sends to the article endpoint. The rendering is not modelled.
 */
module HomePage {
  import opened Options
  import opened Text
  import opened Domain
  import opened FiltersHook
  import ArticlesApi

  // ---------------------------------------------------------------------
  // Query strings

  /** A `URLSearchParams`, by name; `set` replaces the value under a name. */
  type Query = map<string, string>

  /** `params.get(key)`. */
  function Lookup(params: Query, key: string): (v: Option<string>)
    ensures v.Some? <==> key in params
    ensures v.Some? ==> v.value == params[key]
  {
    if key in params then Some(params[key]) else None
  }

  /** `page.toString()` for a page number. */
  function Decimal(n: nat): (s: string)
    ensures s != []
    ensures forall i :: 0 <= i < |s| ==> '0' <= s[i] <= '9'
    decreases n
  {
    if n < 10 then [('0' as int + n) as char]
    else Decimal(n / 10) + [('0' as int + n % 10) as char]
  }

  /** `parseInt` on a string of decimal digits. */
  function ParseDecimal(s: string): int
    decreases |s|
  {
    if s == [] then 0
    else 10 * ParseDecimal(s[..|s| - 1]) + (s[|s| - 1] as int - '0' as int)
  }

  /** The route reads back the page number the page wrote. */
  lemma {:induction false} DecimalRoundTrip(n: nat)
    ensures ParseDecimal(Decimal(n)) == n
    decreases n
  {
    if n >= 10 {
      DecimalRoundTrip(n / 10);
      var s := Decimal(n);
      assert s[..|s| - 1] == Decimal(n / 10);
    }
  }

  /** The query string `fetchArticles` builds, as a function of the filters and the page. */
  function ParamsFor(f: Filters, page: nat): Query {
    var p0: Query := map[];
    var p1 := if |f.countries| > 0 then p0["country" := Join(f.countries)] else p0;
    var p2 := if |f.brands| > 0 then p1["brand" := Join(f.brands)] else p1;
    var p3 := if f.category != "all" then p2["category" := f.category] else p2;
    var p4 := if f.query != "" then p3["q" := f.query] else p3;
    p4["page" := Decimal(page)]
  }

  /** The successive `params.set` calls of `fetchArticles`. */
  method FetchParams(f: Filters, page: nat) returns (params: Query)
    ensures params == ParamsFor(f, page)
  {
    params := map[];
    if |f.countries| > 0 {
      params := params["country" := Join(f.countries)];
    }
    if |f.brands| > 0 {
      params := params["brand" := Join(f.brands)];
    }
    if f.category != "all" {
      params := params["category" := f.category];
    }
    if f.query != "" {
      params := params["q" := f.query];
    }
    params := params["page" := Decimal(page)];
  }

  /**
   * The country and brand parameters are present exactly when their lists
   * are non-empty and carry the lists joined by ","; category is left out
   * exactly when it is "all", `q` exactly when the query is empty; the page
   * is always sent; nothing else is.
   */
  lemma ParamsForShape(f: Filters, page: nat)
    ensures Lookup(ParamsFor(f, page), "country") == (if |f.countries| > 0 then Some(Join(f.countries)) else None)
    ensures Lookup(ParamsFor(f, page), "brand") == (if |f.brands| > 0 then Some(Join(f.brands)) else None)
    ensures Lookup(ParamsFor(f, page), "category") == (if f.category != "all" then Some(f.category) else None)
    ensures Lookup(ParamsFor(f, page), "q") == (if f.query != "" then Some(f.query) else None)
    ensures Lookup(ParamsFor(f, page), "page") == Some(Decimal(page))
    ensures ParamsFor(f, page).Keys <= {"country", "brand", "category", "q", "page"}
  {
  }

  /** How the route reads the query string (without a limit, which the page never sends). */
  function RouteParams(params: Query): ArticlesApi.Params {
    var page := Lookup(params, "page");
    ArticlesApi.Params(
      Lookup(params, "country"),
      Lookup(params, "brand"),
      Lookup(params, "category"),
      Lookup(params, "q"),
      Lookup(params, "ids"),
      if Truthy(page) then Some(ParseDecimal(page.value)) else None,
      None)
  }

  /** Country codes and brand names as the filter lists hold them: non-empty and free of commas. */
  predicate PlainList(xs: seq<string>) {
    forall i :: 0 <= i < |xs| ==> xs[i] != "" && ',' !in xs[i]
  }

  /** What the filters mean for a row, stated on the client's own state. */
  predicate Wanted(f: Filters, a: Article) {
    && (f.countries != [] ==> a.country in f.countries)
    && (f.brands != [] ==> a.brand.Some? && a.brand.value in f.brands)
    && (f.category != "" && f.category != "all" ==> a.category.Key() == f.category)
    && (f.query != "" ==> ArticlesApi.SearchHit(a, f.query))
  }

  /**
   * The round trip: the route, splitting the joined lists on ",", selects
   * exactly the rows the filters ask for, and reads back the page number.
   */
  lemma FetchRoundTrip(f: Filters, page: nat, a: Article)
    requires PlainList(f.countries) && PlainList(f.brands)
    requires page >= 1
    ensures ArticlesApi.Admits(RouteParams(ParamsFor(f, page)), a) <==> Wanted(f, a)
    ensures RouteParams(ParamsFor(f, page)).page == Some(page)
  {
    ParamsForShape(f, page);
    if f.countries != [] {
      SplitJoin(f.countries);
      JoinNonEmpty(f.countries);
    }
    if f.brands != [] {
      SplitJoin(f.brands);
      JoinNonEmpty(f.brands);
    }
    DecimalRoundTrip(page);
  }

  // ---------------------------------------------------------------------
  // Pagination

  /** The "previous" button: one page back, never below 1. */
  function PrevPage(p: int): (r: int)
    ensures r >= 1
    ensures p > 1 ==> r == p - 1
    ensures p <= 1 ==> r == 1
  {
    if 1 > p - 1 then 1 else p - 1
  }

  /** The "next" button: one page on, never past the last page. */
  function NextPage(p: int, totalPages: int): (r: int)
    ensures r <= totalPages
    ensures p < totalPages ==> r == p + 1
    ensures p >= totalPages ==> r == totalPages
  {
    if totalPages < p + 1 then totalPages else p + 1
  }

  /** Both buttons keep a page in `[1, totalPages]` inside it. */
  lemma PagingStaysInRange(p: int, totalPages: int)
    requires 1 <= p <= totalPages
    ensures 1 <= PrevPage(p) <= totalPages
    ensures 1 <= NextPage(p, totalPages) <= totalPages
  {
  }

  class ListingPage {
    var filters: Filters
    var page: int

    ghost predicate Valid()
      reads this
    {
      page >= 1
    }

    /** The first render. */
    constructor()
      ensures Valid()
      ensures filters == INITIAL && page == 1
    {
      filters := INITIAL;
      page := 1;
    }

    /** A filter update followed by the effect that watches the filters: the page goes back to 1. */
    method UpdateFilters(next: Filters)
      requires Valid()
      modifies this
      ensures Valid()
      ensures filters == next && page == 1
    {
      filters := next;
      page := 1;
    }

    method ToggleCountry(code: string)
      requires Valid()
      modifies this
      ensures Valid()
      ensures filters == FiltersHook.ToggleCountry(old(filters), code) && page == 1
    {
      UpdateFilters(FiltersHook.ToggleCountry(filters, code));
    }

    method ToggleBrand(brand: string)
      requires Valid()
      modifies this
      ensures Valid()
      ensures filters == FiltersHook.ToggleBrand(old(filters), brand) && page == 1
    {
      UpdateFilters(FiltersHook.ToggleBrand(filters, brand));
    }

    method SetCategory(category: string)
      requires Valid()
      modifies this
      ensures Valid()
      ensures filters == FiltersHook.SetCategory(old(filters), category) && page == 1
    {
      UpdateFilters(FiltersHook.SetCategory(filters, category));
    }

    method SetQuery(query: string)
      requires Valid()
      modifies this
      ensures Valid()
      ensures filters == FiltersHook.SetQuery(old(filters), query) && page == 1
    {
      UpdateFilters(FiltersHook.SetQuery(filters, query));
    }

    method ClearFilters()
      requires Valid()
      modifies this
      ensures Valid()
      ensures filters == INITIAL && page == 1
    {
      UpdateFilters(FiltersHook.ClearFilters(filters));
    }

    /** The "previous" button. */
    method Prev(totalPages: int)
      requires Valid()
      modifies this
      ensures Valid()
      ensures page == PrevPage(old(page)) && filters == old(filters)
      ensures old(page) <= totalPages ==> page <= totalPages
    {
      page := if 1 > page - 1 then 1 else page - 1;
    }

    /** The "next" button, shown only when there is more than one page. */
    method Next(totalPages: int)
      requires Valid() && totalPages > 1
      modifies this
      ensures Valid()
      ensures page == NextPage(old(page), totalPages) && filters == old(filters)
      ensures page <= totalPages
    {
      page := if totalPages < page + 1 then totalPages else page + 1;
    }

    /** The query string of the current state. */
    method Fetch() returns (params: Query)
      requires Valid()
      ensures params == ParamsFor(filters, page)
    {
      params := FetchParams(filters, page);
    }
  }
}
