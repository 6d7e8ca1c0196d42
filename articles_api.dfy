/**
 * The article listing endpoint. The database is an in-memory sequence of
 * rows; the `where` object the handler builds becomes a predicate over a
 * row, and the ordering, paging and distinct-value queries become functions
 * over the sequence.
 */
module ArticlesApi {
  import opened Options
  import opened Text
  import opened Domain

  /**
   * The query string. `None` is a parameter that is missing; for `page` and
   * `limit` it also stands for an empty one, which `|| "1"` and `|| "20"`
   * replace by the default.
   */
  datatype Params = Params(
    country: Option<string>,
    brand: Option<string>,
    category: Option<string>,
    q: Option<string>,
    ids: Option<string>,
    page: Option<int>,
    limit: Option<int>)

  /** Page and limit, when given, are positive. */
  predicate ValidParams(p: Params) {
    (p.page.Some? ==> p.page.value >= 1) && (p.limit.Some? ==> p.limit.value >= 1)
  }

  function PageOf(p: Params): (n: int)
    requires ValidParams(p)
    ensures n >= 1
    ensures p.page.None? ==> n == 1
    ensures p.page.Some? ==> n == p.page.value
  {
    p.page.GetOr(1)
  }

  function LimitOf(p: Params): (n: int)
    requires ValidParams(p)
    ensures n >= 1
    ensures p.limit.None? ==> n == 20
    ensures p.limit.Some? ==> n == p.limit.value
  {
    p.limit.GetOr(20)
  }

  // ---------------------------------------------------------------------
  // The where clause

  /** A column condition: equality with one value, or membership in a list. */
  datatype FieldFilter = Equals(v: string) | In(vs: seq<string>)

  /** The `where` object; a `None` field is a key that was not set. */
  datatype Where = Where(
    id: Option<seq<string>>,
    country: Option<FieldFilter>,
    brand: Option<FieldFilter>,
    category: Option<string>,
    search: Option<string>)

  predicate FieldOk(f: FieldFilter, x: string) {
    match f
    case Equals(v) => x == v
    case In(vs) => x in vs
  }

  /** The `OR` of six `contains` conditions; a null column never matches. */
  predicate SearchHit(a: Article, q: string) {
    || Contains(a.title, q)
    || Contains(a.summary, q)
    || (a.titleJa.Some? && Contains(a.titleJa.value, q))
    || (a.summaryJa.Some? && Contains(a.summaryJa.value, q))
    || (a.brand.Some? && Contains(a.brand.value, q))
    || (a.company.Some? && Contains(a.company.value, q))
  }

  /** A row satisfies the `where` object: every key that was set holds. */
  predicate Matches(w: Where, a: Article) {
    && (w.id.Some? ==> a.id in w.id.value)
    && (w.country.Some? ==> FieldOk(w.country.value, a.country))
    && (w.brand.Some? ==> a.brand.Some? && FieldOk(w.brand.value, a.brand.value))
    && (w.category.Some? ==> a.category.Key() == w.category.value)
    && (w.search.Some? ==> SearchHit(a, w.search.value))
  }

  /**
   * What the query parameters ask for, stated directly: the id, the country
   * and the brand are in the comma-split lists, the category is the one asked
   * for unless it is missing, empty or "all", and a non-empty search string
   * occurs in one of the searched columns.
   */
  predicate Admits(p: Params, a: Article) {
    && (Truthy(p.ids) ==> a.id in Split(p.ids.value))
    && (Truthy(p.country) ==> a.country in Split(p.country.value))
    && (Truthy(p.brand) ==> a.brand.Some? && a.brand.value in Split(p.brand.value))
    && (Truthy(p.category) && p.category.value != "all" ==> a.category.Key() == p.category.value)
    && (Truthy(p.q) ==> SearchHit(a, p.q.value))
  }

  /** A single value compared by equality selects what membership in the one-element list selects. */
  lemma EqualsIsSingletonIn(v: string, x: string)
    ensures FieldOk(Equals(v), x) <==> FieldOk(In([v]), x)
  {
  }

  /** A split list of length one becomes an equality, a longer one a membership test. */
  function ListFilter(values: seq<string>): (f: FieldFilter)
    requires |values| >= 1
    ensures forall x :: FieldOk(f, x) <==> x in values
    ensures |values| == 1 ==> f == Equals(values[0])
    ensures |values| > 1 ==> f == In(values)
  {
    if |values| == 1 then Equals(values[0]) else In(values)
  }

  /** The successive conditional assignments that build the `where` object. */
  method BuildWhere(p: Params) returns (w: Where)
    ensures forall a :: Matches(w, a) <==> Admits(p, a)
    ensures w.id.Some? <==> Truthy(p.ids)
    ensures w.country.Some? <==> Truthy(p.country)
    ensures w.brand.Some? <==> Truthy(p.brand)
    ensures w.category.Some? <==> Truthy(p.category) && p.category.value != "all"
    ensures w.search.Some? <==> Truthy(p.q)
  {
    w := Where(None, None, None, None, None);
    if Truthy(p.ids) {
      w := w.(id := Some(Split(p.ids.value)));
    }
    if Truthy(p.country) {
      var countries := Split(p.country.value);
      w := w.(country := Some(ListFilter(countries)));
    }
    if Truthy(p.brand) {
      var brands := Split(p.brand.value);
      w := w.(brand := Some(ListFilter(brands)));
    }
    if Truthy(p.category) && p.category.value != "all" {
      w := w.(category := Some(p.category.value));
    }
    if Truthy(p.q) {
      w := w.(search := Some(p.q.value));
    }
  }

  /** The rows `findMany` and `count` see, in table order. */
  function MatchedBy(db: seq<Article>, w: Where): seq<Article>
    decreases |db|
  {
    if db == [] then []
    else
      var n := |db| - 1;
      MatchedBy(db[..n], w) + (if Matches(w, db[n]) then [db[n]] else [])
  }

  /** The rows the parameters ask for, in table order. */
  function Selected(db: seq<Article>, p: Params): seq<Article>
    decreases |db|
  {
    if db == [] then []
    else
      var n := |db| - 1;
      Selected(db[..n], p) + (if Admits(p, db[n]) then [db[n]] else [])
  }

  /** A `where` object that agrees with the parameters on every row selects the same rows. */
  lemma {:induction false} MatchedBySelected(db: seq<Article>, w: Where, p: Params)
    requires forall a :: Matches(w, a) <==> Admits(p, a)
    ensures MatchedBy(db, w) == Selected(db, p)
    decreases |db|
  {
    if db != [] {
      MatchedBySelected(db[..|db| - 1], w, p);
    }
  }

  /** Exactly the rows the parameters admit are selected, each once, in table order. */
  lemma {:induction false} SelectedFaithful(db: seq<Article>, p: Params)
    ensures |Selected(db, p)| <= |db|
    ensures forall a :: a in Selected(db, p) ==> a in db && Admits(p, a)
    ensures forall i :: 0 <= i < |db| && Admits(p, db[i]) ==> db[i] in Selected(db, p)
    decreases |db|
  {
    if db != [] {
      var n := |db| - 1;
      SelectedFaithful(db[..n], p);
      forall i | 0 <= i < |db| && Admits(p, db[i]) ensures db[i] in Selected(db, p) {
        if i < n {
          assert db[..n][i] == db[i];
        }
      }
    }
  }

  /** The selection does not depend on the page or the limit, so neither does `total`. */
  lemma {:induction false} SelectedIgnoresPaging(db: seq<Article>, p: Params, page: Option<int>, limit: Option<int>)
    ensures Selected(db, p.(page := page, limit := limit)) == Selected(db, p)
    decreases |db|
  {
    if db != [] {
      SelectedIgnoresPaging(db[..|db| - 1], p, page, limit);
    }
  }

  // ---------------------------------------------------------------------
  // Ordering and paging

  /** Latest first. */
  predicate SortedByDate(s: seq<Article>) {
    forall i, j :: 0 <= i < j < |s| ==> s[i].publishedAt >= s[j].publishedAt
  }

  /** Puts `a` after every row at least as recent and before the first older one. */
  function InsertByDate(a: Article, s: seq<Article>): seq<Article>
    decreases |s|
  {
    if s == [] then [a]
    else if s[0].publishedAt >= a.publishedAt then [s[0]] + InsertByDate(a, s[1..])
    else [a] + s
  }

  /** `orderBy: { publishedAt: "desc" }`; rows with the same date keep their table order. */
  function SortByDate(s: seq<Article>): seq<Article>
    decreases |s|
  {
    if s == [] then []
    else InsertByDate(s[|s| - 1], SortByDate(s[..|s| - 1]))
  }

  lemma {:induction false} InsertByDatePermutes(a: Article, s: seq<Article>)
    ensures multiset(InsertByDate(a, s)) == multiset(s) + multiset{a}
    decreases |s|
  {
    if s != [] && s[0].publishedAt >= a.publishedAt {
      InsertByDatePermutes(a, s[1..]);
      assert s == [s[0]] + s[1..];
    }
  }

  lemma {:induction false} InsertByDateSorted(a: Article, s: seq<Article>)
    requires SortedByDate(s)
    ensures SortedByDate(InsertByDate(a, s))
    decreases |s|
  {
    if s != [] {
      var tail := s[1..];
      assert SortedByDate(tail) by {
        forall i, j | 0 <= i < j < |tail| ensures tail[i].publishedAt >= tail[j].publishedAt {
          assert tail[i] == s[i + 1] && tail[j] == s[j + 1];
        }
      }
      if s[0].publishedAt >= a.publishedAt {
        var rest := InsertByDate(a, tail);
        InsertByDateSorted(a, tail);
        InsertByDatePermutes(a, tail);
        forall j | 0 <= j < |rest| ensures s[0].publishedAt >= rest[j].publishedAt {
          assert rest[j] in multiset(rest);
          if rest[j] != a {
            assert rest[j] in multiset(tail);
            var k :| 0 <= k < |tail| && tail[k] == rest[j];
            assert s[k + 1] == rest[j];
          }
        }
        assert InsertByDate(a, s) == [s[0]] + rest;
      } else {
        assert InsertByDate(a, s) == [a] + s;
      }
    }
  }

  /** The ordering is descending by date and a permutation of its input. */
  lemma {:induction false} SortByDateFacts(s: seq<Article>)
    ensures SortedByDate(SortByDate(s))
    ensures multiset(SortByDate(s)) == multiset(s)
    decreases |s|
  {
    if s != [] {
      var n := |s| - 1;
      SortByDateFacts(s[..n]);
      InsertByDateSorted(s[n], SortByDate(s[..n]));
      InsertByDatePermutes(s[n], SortByDate(s[..n]));
      assert s == s[..n] + [s[n]];
    }
  }

  /** `skip` then `take`. */
  function Window<T>(s: seq<T>, skip: nat, take: nat): (w: seq<T>)
    ensures |w| <= take
    ensures skip >= |s| ==> w == []
    ensures skip < |s| ==> |w| == (if |s| - skip < take then |s| - skip else take)
    ensures forall i :: 0 <= i < |w| ==> skip + i < |s| && w[i] == s[skip + i]
  {
    if skip >= |s| then [] else s[skip..if skip + take < |s| then skip + take else |s|]
  }

  /** The `skip` of page `page`: the rows of the earlier pages. */
  function Skip(page: int, limit: int): (n: nat)
    requires page >= 1 && limit >= 1
    ensures page == 1 ==> n == 0
    ensures n >= page - 1
  {
    (page - 1) * limit
  }

  /** Consecutive pages are consecutive windows: the next page starts `limit` rows later. */
  lemma SkipNext(page: int, limit: int)
    requires page >= 1 && limit >= 1
    ensures Skip(page + 1, limit) == Skip(page, limit) + limit
  {
  }

  /** `Math.ceil(total / limit)` on integers. */
  function CeilDiv(total: nat, limit: int): (r: nat)
    requires limit >= 1
    ensures r * limit >= total
    ensures total == 0 ==> r == 0
    ensures total > 0 ==> (r - 1) * limit < total
  {
    if total == 0 then 0 else (total - 1) / limit + 1
  }

  /** Every selected row is on exactly one page: the pages 1 to `totalPages` cover the selection. */
  lemma PagesCover(total: nat, limit: int, page: int)
    requires limit >= 1 && page >= 1
    ensures page <= CeilDiv(total, limit) <==> (page - 1) * limit < total
  {
    var r := CeilDiv(total, limit);
    if page <= r {
      assert (page - 1) * limit <= (r - 1) * limit;
    } else {
      assert (page - 1) * limit >= r * limit;
    }
  }

  // ---------------------------------------------------------------------
  // Facet lists

  /** Ascending order on strings: a proper prefix comes first, otherwise the first differing character decides. */
  predicate Less(a: string, b: string)
    decreases |a|
  {
    if a == [] then b != []
    else b != [] && (a[0] < b[0] || (a[0] == b[0] && Less(a[1..], b[1..])))
  }

  lemma {:induction false} LessIrreflexive(a: string)
    ensures !Less(a, a)
    decreases |a|
  {
    if a != [] {
      LessIrreflexive(a[1..]);
    }
  }

  lemma {:induction false} LessTotal(a: string, b: string)
    ensures a == b || Less(a, b) || Less(b, a)
    decreases |a|
  {
    if a != [] && b != [] && a[0] == b[0] {
      LessTotal(a[1..], b[1..]);
      if a[1..] == b[1..] {
        assert a == [a[0]] + a[1..] && b == [b[0]] + b[1..];
      }
    }
  }

  lemma {:induction false} LessTransitive(a: string, b: string, c: string)
    requires Less(a, b) && Less(b, c)
    ensures Less(a, c)
    decreases |a|
  {
    if a != [] && a[0] == b[0] && b[0] == c[0] {
      LessTransitive(a[1..], b[1..], c[1..]);
    }
  }

  /** Distinct and ascending. */
  predicate Ascending(s: seq<string>) {
    forall i, j :: 0 <= i < j < |s| ==> Less(s[i], s[j])
  }

  /** An ascending list has no value twice. */
  lemma AscendingDistinct(s: seq<string>, i: nat, j: nat)
    requires Ascending(s) && i < j < |s|
    ensures s[i] != s[j]
  {
    LessIrreflexive(s[i]);
  }

  /** Adds `x` to an ascending list unless it is there already. */
  function InsertUnique(x: string, s: seq<string>): seq<string>
    decreases |s|
  {
    if s == [] then [x]
    else if x == s[0] then s
    else if Less(x, s[0]) then [x] + s
    else [s[0]] + InsertUnique(x, s[1..])
  }

  lemma {:induction false} InsertUniqueFacts(x: string, s: seq<string>)
    requires Ascending(s)
    ensures Ascending(InsertUnique(x, s))
    ensures forall y :: y in InsertUnique(x, s) <==> y == x || y in s
    decreases |s|
  {
    if s != [] && x != s[0] && !Less(x, s[0]) {
      var rest := InsertUnique(x, s[1..]);
      InsertUniqueFacts(x, s[1..]);
      LessTotal(x, s[0]);
      assert s == [s[0]] + s[1..];
      forall j | 0 <= j < |rest| ensures Less(s[0], rest[j]) {
        assert rest[j] in rest;
        if rest[j] != x {
          var k :| 0 <= k < |s[1..]| && s[1..][k] == rest[j];
          assert s[k + 1] == rest[j];
        }
      }
    } else if s != [] && Less(x, s[0]) {
      forall j | 0 < j < |s| ensures Less(x, s[j]) {
        LessTransitive(x, s[0], s[j]);
      }
    }
  }

  /** `distinct` and ascending `orderBy` over a nullable column, nulls excluded. */
  function Facet(vals: seq<Option<string>>): seq<string>
    decreases |vals|
  {
    if vals == [] then []
    else
      var n := |vals| - 1;
      var r := Facet(vals[..n]);
      if vals[n].Some? then InsertUnique(vals[n].value, r) else r
  }

  /** The distinct non-null values, ascending, once each. */
  lemma {:induction false} FacetFacts(vals: seq<Option<string>>)
    ensures Ascending(Facet(vals))
    ensures forall i :: 0 <= i < |vals| && vals[i].Some? ==> vals[i].value in Facet(vals)
    ensures forall x :: x in Facet(vals) ==> exists i :: 0 <= i < |vals| && vals[i] == Some(x)
    decreases |vals|
  {
    if vals != [] {
      var n := |vals| - 1;
      var r := Facet(vals[..n]);
      FacetFacts(vals[..n]);
      if vals[n].Some? {
        InsertUniqueFacts(vals[n].value, r);
      }
      forall i | 0 <= i < |vals| && vals[i].Some? ensures vals[i].value in Facet(vals) {
        if i < n {
          assert vals[..n][i] == vals[i];
        }
      }
      forall x | x in Facet(vals) ensures exists i :: 0 <= i < |vals| && vals[i] == Some(x) {
        if x in r {
          var i :| 0 <= i < n && vals[..n][i] == Some(x);
          assert vals[i] == Some(x);
        } else {
          assert vals[n] == Some(x);
        }
      }
    }
  }

  /** `.filter(Boolean)`: the empty string is dropped. */
  function Compact(s: seq<string>): seq<string>
    decreases |s|
  {
    if s == [] then []
    else (if s[0] == "" then [] else [s[0]]) + Compact(s[1..])
  }

  lemma {:induction false} CompactFacts(s: seq<string>)
    requires Ascending(s)
    ensures Ascending(Compact(s))
    ensures forall x :: x in Compact(s) <==> x in s && x != ""
    decreases |s|
  {
    if s != [] {
      var rest := Compact(s[1..]);
      assert Ascending(s[1..]) by {
        forall i, j | 0 <= i < j < |s[1..]| ensures Less(s[1..][i], s[1..][j]) {
          assert s[1..][i] == s[i + 1] && s[1..][j] == s[j + 1];
        }
      }
      CompactFacts(s[1..]);
      assert s == [s[0]] + s[1..];
      if s[0] != "" {
        forall j | 0 <= j < |rest| ensures Less(s[0], rest[j]) {
          assert rest[j] in rest;
          var k :| 0 <= k < |s[1..]| && s[1..][k] == rest[j];
          assert s[k + 1] == rest[j];
        }
      }
    }
  }

  function BrandColumn(db: seq<Article>): seq<Option<string>> {
    seq(|db|, i requires 0 <= i < |db| => db[i].brand)
  }

  function CompanyColumn(db: seq<Article>): seq<Option<string>> {
    seq(|db|, i requires 0 <= i < |db| => db[i].company)
  }

  function CountryColumn(db: seq<Article>): seq<Option<string>> {
    seq(|db|, i requires 0 <= i < |db| => Some(db[i].country))
  }

  /** The JSON body. */
  datatype Response = Response(
    articles: seq<Article>,
    total: nat,
    page: int,
    limit: int,
    totalPages: nat,
    brands: seq<string>,
    companies: seq<string>,
    countries: seq<string>)

  /** The brand facet: ascending, once each, exactly the non-empty brands of any row, whatever the filters. */
  lemma BrandFacet(db: seq<Article>)
    ensures Ascending(Compact(Facet(BrandColumn(db))))
    ensures forall x :: x in Compact(Facet(BrandColumn(db))) <==>
      x != "" && exists i :: 0 <= i < |db| && db[i].brand == Some(x)
  {
    var col := BrandColumn(db);
    FacetFacts(col);
    CompactFacts(Facet(col));
    forall x | x != "" && (exists i :: 0 <= i < |db| && db[i].brand == Some(x))
      ensures x in Compact(Facet(col))
    {
      var i :| 0 <= i < |db| && db[i].brand == Some(x);
      assert col[i] == Some(x);
    }
  }

  /** The company facet, in the same way. */
  lemma CompanyFacet(db: seq<Article>)
    ensures Ascending(Compact(Facet(CompanyColumn(db))))
    ensures forall x :: x in Compact(Facet(CompanyColumn(db))) <==>
      x != "" && exists i :: 0 <= i < |db| && db[i].company == Some(x)
  {
    var col := CompanyColumn(db);
    FacetFacts(col);
    CompactFacts(Facet(col));
    forall x | x != "" && (exists i :: 0 <= i < |db| && db[i].company == Some(x))
      ensures x in Compact(Facet(col))
    {
      var i :| 0 <= i < |db| && db[i].company == Some(x);
      assert col[i] == Some(x);
    }
  }

  /** The country facet: ascending, once each, exactly the countries of any row (the empty string included). */
  lemma CountryFacet(db: seq<Article>)
    ensures Ascending(Facet(CountryColumn(db)))
    ensures forall x :: x in Facet(CountryColumn(db)) <==> exists i :: 0 <= i < |db| && db[i].country == x
  {
    var col := CountryColumn(db);
    FacetFacts(col);
    forall x | exists i :: 0 <= i < |db| && db[i].country == x
      ensures x in Facet(col)
    {
      var i :| 0 <= i < |db| && db[i].country == x;
      assert col[i] == Some(x);
    }
  }

  /** Every row on a page is a row of the table that the parameters admit. */
  lemma PageRows(db: seq<Article>, p: Params, skip: nat, take: nat)
    ensures forall a :: a in Window(SortByDate(Selected(db, p)), skip, take) ==> a in db && Admits(p, a)
  {
    var ordered := SortByDate(Selected(db, p));
    SortByDateFacts(Selected(db, p));
    SelectedFaithful(db, p);
    forall a | a in Window(ordered, skip, take) ensures a in db && Admits(p, a) {
      assert a in multiset(ordered);
    }
  }

  /**
   * `GET`: the selected rows, latest first, from row `(page - 1) * limit` on
   * and at most `limit` of them; their total count; the page count; and the
   * facet lists taken over the whole table.
   */
  method Get(p: Params, db: seq<Article>) returns (resp: Response)
    requires ValidParams(p)
    ensures resp.page == PageOf(p) && resp.limit == LimitOf(p)
    ensures resp.total == |Selected(db, p)|
    ensures resp.articles == Window(SortByDate(Selected(db, p)), Skip(resp.page, resp.limit), resp.limit)
    ensures |resp.articles| <= resp.limit
    ensures forall a :: a in resp.articles ==> a in db && Admits(p, a)
    ensures resp.totalPages == CeilDiv(resp.total, resp.limit)
    ensures resp.brands == Compact(Facet(BrandColumn(db)))
    ensures resp.companies == Compact(Facet(CompanyColumn(db)))
    ensures resp.countries == Facet(CountryColumn(db))
  {
    var page := p.page.GetOr(1);
    var limit := p.limit.GetOr(20);
    var w := BuildWhere(p);
    MatchedBySelected(db, w, p);
    var matched := MatchedBy(db, w);
    var skip := Skip(page, limit);
    var articles := Window(SortByDate(matched), skip, limit);
    var total := |matched|;
    PageRows(db, p, skip, limit);
    var brands := Compact(Facet(BrandColumn(db)));
    var companies := Compact(Facet(CompanyColumn(db)));
    var countries := Facet(CountryColumn(db));
    resp := Response(articles, total, page, limit, CeilDiv(total, limit), brands, companies, countries);
  }
}
