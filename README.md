# Period product news: a Dafny model of the collection and listing core

The system collects news about menstrual products and shows it on a listing
page. Two collectors feed one article table:

- the news-search collector sends thirty searches: ten countries times the
  first three search keywords. It keeps items that have a title and a url,
  detects brand, company and category from the text, and upserts each one
  by url.
- the brand-site scraper tries nine CSS selectors, in order, on each of five
  brand pages. It keeps the records of the first selector that yields any.

A scheduled endpoint runs both collectors behind a bearer-token check and
reports a summary. The articles endpoint turns query parameters into a
filter, orders the matching rows by date, pages them and adds facet lists.
The translation helper translates title, summary and truncated content.
Blank text gives null. Text in which more than 30% of the characters are
kana or kanji is taken for Japanese and returned unchanged. On the client, three hooks keep
the filters, the favourites and the display language. The listing page
builds the query string and moves between pages.

The model is written in Dafny, one module per source file, plus helpers:

- `Options` holds `Option`.
- `Text` holds JavaScript string semantics: truthiness, `||`, `trim`, `includes`, `split` and `join`.
- `Lists` holds the toggle updater.
- `Domain` holds categories, sources and rows.
- `Store` holds the table keyed by url and the upsert.

How each kind of code is modelled:

- Pure logic is functions and lemmas.
- The collectors' loops are methods with loop invariants. Each is proved
  against a function that describes the whole run: `Candidates`,
  `ScrapeCandidates`, `Store.Ingest`.
- The table is a `Repository` object whose `articles` map the upsert updates.
- The hooks with browser storage and the listing page are classes whose
  methods update their fields.

External services are parameters of the model:

- the search API and the page fetch (`fetch`, `fetchPage`);
- the translation service (`service`), which answers each request on its own, by the request's position in `translateArticle`;
- the database's failures (`faults`, the set of upsert attempts that throw);
- the clock (`now`);
- the outcome of each collector as seen by the scheduled endpoint (`Outcome`). As written, neither collector throws: `collectFromNewsAPI` catches every request inside its loop, `scrapePage` catches its whole body and `collectFromScraping` catches each upsert. So only `Returned` occurs, the `catch` blocks of the endpoint never run, and its 500 branch is never taken (`CronCollect.ReturnedAlwaysSucceeds`). `Threw` is kept so that those blocks are modelled too.

## Model

| member | source | states |
|---|---|---|
| Constants.CategoriesCoverTaxonomy | src/lib/constants.ts:27-31 | the category table has exactly one key per classification outcome (pad, underwear, general) and no other |
| Constants.CountryTablesAgree | src/lib/constants.ts:1-25 | the name table and the flag table have the same ten country codes |
| Constants.ScrapeTargetsWellFormed | src/lib/constants.ts:46-82 | every scrape target's country is a known country, and the origin written for it is a prefix of its url followed by "/" |
| Constants.ScrapeOriginsAreHosts | src/lib/collectors/scraper.ts:62-65 | every origin written for a target is "https://" and a non-empty host with no further "/", which is the shape `new URL(url).origin` gives |
| Text.Or | src/lib/collectors/news-api.ts:131-132 | `a \|\| b` on an optional string is `a` exactly when `a` is a non-empty string, `b` otherwise |
| Text.Lower | src/lib/collectors/news-api.ts:60 | `toLowerCase` keeps the length; the definition folds ASCII capitals one by one (ASCII only, see below) |
| Text.ContainsAt | src/lib/collectors/news-api.ts:63 | `includes` holds exactly when the word occurs at some offset |
| Text.LowerKeepsContains | src/lib/collectors/news-api.ts:60-63 | lower-casing the text keeps every occurrence of a lower-cased keyword |
| Text.TrimStartShape | src/lib/collectors/scraper.ts:51 | `trimStart` removes exactly the leading run of white space |
| Text.TrimEndShape | src/lib/collectors/scraper.ts:51 | `trimEnd` removes exactly the trailing run of white space |
| Text.Trim | src/lib/collectors/scraper.ts:51-54 | the definition of `trim` as `trimEnd` after `trimStart` (its shape is the two lemmas above) |
| Text.TrimEmptyIffBlank | src/lib/translate.ts:13 | `trim()` is empty exactly when every character is white space |
| Text.Split | src/app/api/articles/route.ts:17-26 | `split(",")` always gives at least one piece |
| Text.Join | src/app/page.tsx:56-58 | the definition of `join(",")` (undone by `Split`, see below) |
| Text.SplitNoComma | src/app/api/articles/route.ts:21 | a comma-free string splits into itself alone |
| Text.SplitJoin | src/app/page.tsx:55-58 | splitting on "," what `join(",")` built gives back the list, when the pieces are non-empty and comma-free |
| Text.JoinNonEmpty | src/app/page.tsx:55-58 | a join of a non-empty list of non-empty pieces is a non-empty parameter |
| Lists.Remove | src/hooks/useFilters.ts:24 | `filter(c => c !== x)` keeps exactly the elements other than `x` and never grows |
| Lists.RemoveAppend | src/hooks/useFilters.ts:24 | the filter distributes over concatenation |
| Lists.RemoveKeepsNoDup | src/hooks/useFilters.ts:24 | the filter keeps a duplicate-free list duplicate-free |
| Lists.ToggleFlips | src/hooks/useFilters.ts:22-25 | the toggle flips the membership of its argument and of nothing else |
| Lists.ToggleKeepsOthers | src/hooks/useFilters.ts:22-25 | apart from the toggled value, the list and its order are unchanged |
| Lists.ToggleTwiceRestores | src/hooks/useFilters.ts:22-25 | appending an absent value and toggling it again restores the list exactly |
| Lists.ToggleKeepsNoDup | src/hooks/useFilters.ts:22-25 | toggling keeps a duplicate-free list duplicate-free |
| Store.UpsertInto | src/lib/collectors/news-api.ts:126-142 | an upsert with an empty `update` adds the url when it is new and leaves every stored row untouched |
| Store.Ingest | src/lib/collectors/news-api.ts:125-146 | the definition of a run of upserts in order: an attempt that throws changes nothing; any other applies `UpsertInto` and adds one to the counter (its properties are the lemmas below) |
| Store.Succeeding | src/lib/collectors/news-api.ts:125-146 | the number of attempts that do not throw is at most the number of attempts |
| Store.IngestCount | src/lib/collectors/news-api.ts:125-146 | the counter of a run is the number of upserts that did not throw, and with no failures the number of upserts, duplicates included |
| Store.IngestKeepsExisting | src/lib/collectors/scraper.ts:108-124 | a row already stored is never changed by later upserts |
| Store.IngestKeys | src/lib/collectors/scraper.ts:106-129 | afterwards the table holds the old urls plus the url of every upsert that did not throw |
| Store.IngestFirstWins | src/lib/collectors/scraper.ts:108-124 | a new url holds the first record with that url whose upsert did not throw |
| Store.IngestIdempotent | src/lib/collectors/scraper.ts:108-124 | re-ingesting urls that are all stored leaves the table unchanged |
| Store.IngestKeyedByUrl | src/lib/collectors/news-api.ts:127 | the table stays keyed by its unique url column |
| Store.IngestCreated | src/lib/collectors/news-api.ts:143-146 | the definition of the counter the "duplicate URL, skip" comment intends: an upsert is counted only when its url was not stored yet |
| Store.IngestCreatedCountsNewRows | src/lib/collectors/news-api.ts:125-146 | the intended counter leaves the same table as the run and counts exactly the rows the run added to it |
| Store.DuplicateUrlCounted | src/lib/collectors/news-api.ts:143-146 | as written, upserting the same record twice stores one row but counts two, where the intended counter counts one |
| Store.Repository.Upsert | src/lib/collectors/news-api.ts:125-146 | one upsert: it reports the failure and changes nothing when it throws, and otherwise applies `UpsertInto` |
| NewsApi.FirstMatch | src/lib/collectors/news-api.ts:62-67 | the scan gives (null, null) or the brand and company of an entry whose keyword occurs in the text |
| NewsApi.DetectBrandAndCompany | src/lib/collectors/news-api.ts:34-68 | the result is (null, null) or the brand and company of a table entry whose lower-cased keyword occurs in the lower-cased text |
| NewsApi.FirstMatchIsFirst | src/lib/collectors/news-api.ts:62-66 | the early-return scan gives the entry of the first keyword that occurs |
| NewsApi.FirstMatchNone | src/lib/collectors/news-api.ts:67 | with no keyword occurring, the scan gives (null, null) |
| NewsApi.LeastHit | src/lib/collectors/news-api.ts:62-66 | when some keyword occurs, there is a least index of one that occurs |
| NewsApi.DetectBrandNull | src/lib/collectors/news-api.ts:38-68 | the brand is null exactly when none of the first nineteen keywords occurs (a hit on "period" looks like no hit); brand and company are null together |
| NewsApi.LaurierFirst | src/lib/collectors/news-api.ts:39-40 | text mentioning ロリエ is ロリエ / 花王 whatever else it mentions |
| NewsApi.SofyBeforeAlways | src/lib/collectors/news-api.ts:41-43 | text mentioning "sofy" and "always" in any ASCII letter case is ソフィ, unless a ロリエ keyword occurs |
| NewsApi.DetectCategory | src/lib/collectors/news-api.ts:70-89 | underwear exactly when an underwear word occurs in the lower-cased text, pad exactly when no underwear word but a pad word occurs, general otherwise |
| NewsApi.QueryKeywords | src/lib/collectors/news-api.ts:101 | three keywords, all from the search keyword table |
| NewsApi.Plan | src/lib/collectors/news-api.ts:100-101 | the nested loops send three requests for each country of the language map |
| NewsApi.PlanAt | src/lib/collectors/news-api.ts:100-114 | request `3*ci+ki` is country `ci` of the language map with keyword `ki` |
| NewsApi.PlanShape | src/lib/collectors/news-api.ts:100-114 | thirty requests; only JP asks for Japanese, all others for English; every country is a known one; the keywords are the first three search keywords |
| NewsApi.CountryLangMapAgrees | src/lib/collectors/news-api.ts:21-32 | the collector's language map has exactly the countries of the country table |
| NewsApi.ScrapeTargetsInBrandMap | src/lib/collectors/news-api.ts:38-59 | every scrape target's brand and company appear together in the brand table |
| NewsApi.Usable | src/lib/collectors/news-api.ts:119 | the definition of the skip test: title and url are both non-empty strings |
| NewsApi.FullText | src/lib/collectors/news-api.ts:121 | the definition of the classified text: title, description and content joined by spaces, a missing part empty |
| NewsApi.Normalise | src/lib/collectors/news-api.ts:121-141 | the created row takes title, url and country from the item and the query, the summary is the description or the title (never empty), the content is content, description or "", and the source is newsapi |
| NewsApi.Normalised | src/lib/collectors/news-api.ts:118-123 | the definition of the rows one response gives: the usable items, normalised, in response order (its properties are the two lemmas below) |
| NewsApi.NormalisedFaithful | src/lib/collectors/news-api.ts:118-123 | every row built from a response comes from a usable item of it, is complete and carries the query's country; no more rows than items |
| NewsApi.NormalisedAllUsable | src/lib/collectors/news-api.ts:118-119 | a response whose items are all usable gives one row per item, in order |
| NewsApi.CandidatesFromPlan | src/lib/collectors/news-api.ts:100-116 | every row of a run comes from an "ok" answer to a request and carries that request's country |
| NewsApi.Candidates | src/lib/collectors/news-api.ts:100-147 | the definition of a run's rows, request by request: a request that throws or answers with a status other than "ok" adds none |
| NewsApi.UpsertItems | src/lib/collectors/news-api.ts:118-147 | the items loop makes one upsert attempt per row of `Normalised`, in order, and leaves table and counter as ingesting those rows after the run so far |
| NewsApi.QueryCountry | src/lib/collectors/news-api.ts:101-157 | the three requests of one country upsert exactly that country's part of the run |
| NewsApi.CollectFromNewsApi | src/lib/collectors/news-api.ts:91-161 | without an API key 0 and the table is unchanged; otherwise table and counter are those of ingesting the rows the whole plan yields |
| Scraper.ResolveLink | src/lib/collectors/scraper.ts:62-66 | the link is the href, otherwise the target url; a root-relative link gets the origin in front |
| Scraper.ResolveImage | src/lib/collectors/scraper.ts:56-58 | `src`, otherwise `data-src`; null exactly when neither is a non-empty string; kept when it starts with "http", otherwise placed after the origin |
| Scraper.ElementTitle | src/lib/collectors/scraper.ts:50-52 | the definition of the title: the trimmed heading text, or the trimmed anchor text when that is empty |
| Scraper.AcceptedTitle | src/lib/collectors/scraper.ts:60 | the definition of the title check: non-empty and at least five characters long |
| Scraper.ScrapedCategory | src/lib/collectors/scraper.ts:81-84 | never general; underwear exactly when the lower-cased title mentions ショーツ or "underwear" |
| Scraper.ScrapeElement | src/lib/collectors/scraper.ts:48-85 | the definition of the `.each` callback: no record when the title is shorter than five characters, otherwise the record of the element (its contract is the lemma below) |
| Scraper.ScrapeElementFields | src/lib/collectors/scraper.ts:48-85 | an element is skipped exactly when its title is shorter than five characters; otherwise every field of its record is as extracted |
| Scraper.PageRecords | src/lib/collectors/scraper.ts:90-94 | a failed fetch yields no records |
| Scraper.ExtractFrom | src/lib/collectors/scraper.ts:47-89 | the definition of the selector loop: the records of the first selector that gives any, none when no selector does (its properties are the lemmas below) |
| Scraper.FirstSelectorWins | src/lib/collectors/scraper.ts:47-89 | the first selector that yields a record gives all the records of the page |
| Scraper.NoSelectorNothing | src/lib/collectors/scraper.ts:47-89 | a page on which no selector yields anything gives nothing |
| Scraper.AcceptedOfFaithful | src/lib/collectors/scraper.ts:48-86 | each record of a selector is the record of one of its elements; no more records than elements |
| Scraper.ExtractFromOneSelector | src/lib/collectors/scraper.ts:47-89 | whatever a page yields comes from one selector alone |
| Scraper.SelectorRecords | src/lib/collectors/scraper.ts:48-86 | the `.each` loop collects exactly the records of the selector's elements |
| Scraper.ScrapePage | src/lib/collectors/scraper.ts:18-95 | `scrapePage` returns the records of the first productive selector, and nothing when the fetch fails |
| Scraper.ToCandidate | src/lib/collectors/scraper.ts:111-123 | the upserted row copies the scraped fields, with source scraping and the collection time |
| Scraper.ToCandidates | src/lib/collectors/scraper.ts:106-124 | one row per scraped record, in order |
| Scraper.FailedTargetSkipped | src/lib/collectors/scraper.ts:100-133 | a target whose fetch fails adds nothing, and the targets after it are still scraped |
| Scraper.PageCandidatesShape | src/lib/collectors/scraper.ts:60-85 | a target's rows are pad or underwear rows from scraping with the target's country, brand and company and a title of at least five characters |
| Scraper.ScrapeCandidatesShape | src/lib/collectors/scraper.ts:97-136 | every row of a scraping run has the shape above with one target's metadata |
| Scraper.UpsertRecords | src/lib/collectors/scraper.ts:106-129 | the upsert loop of one target makes one attempt per record, in order, and leaves table and counter as ingesting its rows after the run so far |
| Scraper.CollectFromScraping | src/lib/collectors/scraper.ts:97-136 | table and counter are those of ingesting the records of all five targets in order |
| Translate.JapaneseCount | src/lib/translate.ts:14-16 | no more matches than characters |
| Translate.Truncate | src/lib/translate.ts:54-55 | content of at most 500 characters is kept; longer content becomes its first 500 characters followed by "..." |
| Translate.TruncateIdempotent | src/lib/translate.ts:54-55 | truncating truncated content changes nothing |
| Translate.JapaneseCountAppend | src/lib/translate.ts:14-16 | the match count of a concatenation is the sum of the counts |
| Translate.JapaneseCountBounds | src/lib/translate.ts:14-16 | the count is zero with no Japanese character and the length with only Japanese characters |
| Translate.IsJapanese | src/lib/translate.ts:12-18 | the definition: not blank, and more than 30% of the characters are kana or kanji (its properties are the two lemmas below) |
| Translate.NoJapaneseScriptNotJapanese | src/lib/translate.ts:12-18 | text without kana or kanji is never taken for Japanese |
| Translate.AllJapaneseScript | src/lib/translate.ts:12-18 | non-empty text of kana and kanji only is Japanese |
| Translate.Translated | src/lib/translate.ts:23-34 | the definition of what the `call`-th `translateText` of an article resolves to (its cases are the lemma below) |
| Translate.TranslatedCases | src/lib/translate.ts:23-34 | blank text gives null with no call; Japanese text comes back unchanged with no call; other text gives the answer to that call's request, null when the request throws |
| Translate.TranslateText | src/lib/translate.ts:23-34 | the result is that of the guards above, and the service is called exactly when the text is neither blank nor Japanese |
| Translate.RequestsShape | src/lib/translate.ts:40-59 | at most three calls, title first, truncated content last, nothing else sent |
| Translate.TranslateArticle | src/lib/translate.ts:40-59 | each field is the translation made by its own call (title first, then summary, then the truncated content), and the requests are made in that order |
| Translate.FailureIsolated | src/lib/translate.ts:27-33 | a request that throws nulls only its own field; every other field is as with a working service, even when its text equals the failing one |
| CronCollect.AuthorizedAsWritten | src/app/api/cron/collect/route.ts:10-16 | the definition of the check as written: the header equals "Bearer " followed by the secret, an unset secret spelled "undefined" |
| CronCollect.UnsetSecretAdmitsLiteralUndefined | src/app/api/cron/collect/route.ts:10-16 | as written, with no secret configured the header "Bearer undefined" is accepted |
| CronCollect.Authorized | src/app/api/cron/collect/route.ts:10-16 | the definition of the intended check: a secret is set and the header is "Bearer " followed by it |
| CronCollect.AuthorizedCorrected | src/app/api/cron/collect/route.ts:10-16 | the corrected check rejects every request when no secret is set, and otherwise agrees with the written one |
| CronCollect.Capture | src/app/api/cron/collect/route.ts:28-47 | a collector that returns gives its count and no error; one that throws gives count 0 and its message |
| CronCollect.SummaryStatus | src/app/api/cron/collect/route.ts:51-52 | status 500 exactly when both sources failed, 200 otherwise |
| CronCollect.Get | src/app/api/cron/collect/route.ts:8-68 | with the check as written: a rejected header gets 401 and no collector runs; an accepted one runs both collectors in order, each result captured, collected is their sum, success unless both threw (which the collectors as written never do); with no secret set, "Bearer undefined" runs both |
| CronCollect.Respond | src/app/api/cron/collect/route.ts:49-67 | the definition of the summary response (its properties are the two lemmas below) |
| CronCollect.OneFailureStillSucceeds | src/app/api/cron/collect/route.ts:49-67 | when exactly one collector throws: status 200, success, collected is the other one's count, and the error is reported |
| CronCollect.ReturnedAlwaysSucceeds | src/app/api/cron/collect/route.ts:49-67 | when both collectors return, as they always do as written, the answer is 200 with success and no error, whatever the counts |
| CronCollect.BothFailed | src/app/api/cron/collect/route.ts:49-67 | status 500 and success false exactly when both throw, and then collected is 0; as written this case never arises |
| ArticlesApi.PageOf | src/app/api/articles/route.ts:10 | the page defaults to 1 |
| ArticlesApi.LimitOf | src/app/api/articles/route.ts:11 | the limit defaults to 20 |
| ArticlesApi.SearchHit | src/app/api/articles/route.ts:34-43 | the definition of the search: the string occurs in title, summary, or one of the non-null columns titleJa, summaryJa, brand, company |
| ArticlesApi.Admits | src/app/api/articles/route.ts:14-43 | the definition of what the parameters ask for, stated on the row (the `where` object is proved against it below) |
| ArticlesApi.EqualsIsSingletonIn | src/app/api/articles/route.ts:22 | equality with one value selects what membership in the one-element list selects |
| ArticlesApi.ListFilter | src/app/api/articles/route.ts:21-27 | one piece becomes an equality, more become a membership test; either way it holds exactly for the listed values |
| ArticlesApi.BuildWhere | src/app/api/articles/route.ts:14-43 | the `where` object admits exactly the rows the parameters ask for, and each key is set exactly when its parameter is present |
| ArticlesApi.Matches | src/app/api/articles/route.ts:14-41 | the definition of how a row satisfies the `where` object: every key that was set holds |
| ArticlesApi.MatchedBy | src/app/api/articles/route.ts:45-52 | the definition of the rows `findMany` and `count` see, in table order |
| ArticlesApi.Selected | src/app/api/articles/route.ts:45-52 | the definition of the admitted rows in table order (its properties are the lemmas below) |
| ArticlesApi.MatchedBySelected | src/app/api/articles/route.ts:45-52 | a `where` object that agrees with the parameters selects the same rows |
| ArticlesApi.SelectedFaithful | src/app/api/articles/route.ts:45-52 | exactly the admitted rows of the table are selected |
| ArticlesApi.SelectedIgnoresPaging | src/app/api/articles/route.ts:52 | `count` does not depend on page or limit |
| ArticlesApi.SortByDate | src/app/api/articles/route.ts:48 | the definition of `orderBy: { publishedAt: "desc" }` by insertion (its properties are the lemmas below) |
| ArticlesApi.InsertByDate | src/app/api/articles/route.ts:48 | the definition of one insertion step: after every row at least as recent, before the first older one |
| ArticlesApi.InsertByDatePermutes | src/app/api/articles/route.ts:48 | inserting a row adds exactly that row |
| ArticlesApi.InsertByDateSorted | src/app/api/articles/route.ts:48 | inserting into a latest-first list keeps it latest-first |
| ArticlesApi.SortByDateFacts | src/app/api/articles/route.ts:48 | the ordering is latest first and a permutation of the selected rows |
| ArticlesApi.Window | src/app/api/articles/route.ts:49-50 | `skip` then `take`: at most `take` rows, the rows from `skip` on, none past the end |
| ArticlesApi.Skip | src/app/api/articles/route.ts:49 | page 1 skips nothing, and page `p` skips at least `p - 1` rows |
| ArticlesApi.SkipNext | src/app/api/articles/route.ts:49 | the next page starts `limit` rows later |
| ArticlesApi.CeilDiv | src/app/api/articles/route.ts:80 | `Math.ceil(total / limit)`: the least page count whose pages hold `total` rows, 0 for no rows |
| ArticlesApi.PagesCover | src/app/api/articles/route.ts:80 | a page is within the page count exactly when it starts before the end of the selection |
| ArticlesApi.Less | src/app/api/articles/route.ts:59 | the definition of ascending string order: a proper prefix first, otherwise the first differing character decides |
| ArticlesApi.LessIrreflexive | src/app/api/articles/route.ts:59 | the ascending string order is irreflexive |
| ArticlesApi.LessTotal | src/app/api/articles/route.ts:59 | it is total |
| ArticlesApi.LessTransitive | src/app/api/articles/route.ts:59 | it is transitive |
| ArticlesApi.AscendingDistinct | src/app/api/articles/route.ts:58 | an ascending list has no value twice |
| ArticlesApi.InsertUniqueFacts | src/app/api/articles/route.ts:55-60 | adding a value to an ascending distinct list keeps it so, and adds exactly that value |
| ArticlesApi.Facet | src/app/api/articles/route.ts:55-60 | the definition of `distinct` with ascending order over a nullable column (its properties are the lemma below) |
| ArticlesApi.FacetFacts | src/app/api/articles/route.ts:55-60 | `distinct` with ascending order: the non-null values of the column, ascending, once each |
| ArticlesApi.CompactFacts | src/app/api/articles/route.ts:82-83 | `filter(Boolean)` drops exactly the empty strings and keeps the order |
| ArticlesApi.BrandFacet | src/app/api/articles/route.ts:55-60 | the brand list is ascending, once each, and holds exactly the non-empty brands of any row, whatever the filters |
| ArticlesApi.CompanyFacet | src/app/api/articles/route.ts:62-67 | the same for companies |
| ArticlesApi.CountryFacet | src/app/api/articles/route.ts:69-73 | the country list is ascending, once each, and holds exactly the countries of any row |
| ArticlesApi.PageRows | src/app/api/articles/route.ts:45-51 | every row on a page is a table row the parameters admit |
| ArticlesApi.Get | src/app/api/articles/route.ts:4-87 | the page of selected rows latest first, at most `limit` of them, their total, the page count and the three facet lists |
| FiltersHook.ToggleCountry | src/hooks/useFilters.ts:20-27 | the code's membership flips, other codes and fields are unchanged, and an absent code is appended |
| FiltersHook.ToggleBrand | src/hooks/useFilters.ts:29-36 | the same for brands |
| FiltersHook.SetCategory | src/hooks/useFilters.ts:38-40 | only the category changes |
| FiltersHook.SetQuery | src/hooks/useFilters.ts:42-44 | only the query changes |
| FiltersHook.ClearFilters | src/hooks/useFilters.ts:46-48 | the initial state, whatever came before |
| FiltersHook.ToggleCountryTwice | src/hooks/useFilters.ts:20-27 | selecting and deselecting a country restores the filters exactly |
| FiltersHook.ToggleBrandTwice | src/hooks/useFilters.ts:29-36 | the same for brands |
| FiltersHook.ToggleCountryKeepsOrder | src/hooks/useFilters.ts:20-27 | the other selected codes keep their order, and a list without repeats stays so |
| FiltersHook.ToggleBrandKeepsOrder | src/hooks/useFilters.ts:29-36 | the same for brands |
| FavoritesHook.GetFavorites | src/hooks/useFavorites.ts:7-15 | the saved list in the browser; the empty list on the server and when nothing parsable is stored |
| FavoritesHook.NextFavorites | src/hooks/useFavorites.ts:35-37 | the id's membership flips, no other id changes, and an absent id is appended |
| FavoritesHook.NextFavoritesFacts | src/hooks/useFavorites.ts:35-37 | toggling twice restores the list, no duplicates appear, and the other ids keep their order |
| FavoritesHook.Favorites.constructor | src/hooks/useFavorites.ts:18 | the first render has no favourites |
| FavoritesHook.Favorites.Mount | src/hooks/useFavorites.ts:20-21 | the mount effect loads what storage holds |
| FavoritesHook.Favorites.ToggleFavorite | src/hooks/useFavorites.ts:33-41 | the new list is the updater's result, it is what storage now holds, and `isFavorite` flips for the id |
| LanguageHook.Next | src/hooks/useLanguage.ts:24 | the toggle always changes the language |
| LanguageHook.NextTwice | src/hooks/useLanguage.ts:24 | toggling twice is the identity |
| LanguageHook.Adopted | src/hooks/useLanguage.ts:10-15 | a saved value is adopted only when it is exactly "original" or "ja"; anything else keeps the current language |
| LanguageHook.StoredRoundTrip | src/hooks/useLanguage.ts:10-20 | what is written is what a later load adopts |
| LanguageHook.LanguagePreference.constructor | src/hooks/useLanguage.ts:8 | the first render shows Japanese |
| LanguageHook.LanguagePreference.Load | src/hooks/useLanguage.ts:10-15 | the mount effect adopts the saved value as above and writes nothing |
| LanguageHook.LanguagePreference.SetLanguage | src/hooks/useLanguage.ts:17-20 | the language and the saved value become the chosen one |
| LanguageHook.LanguagePreference.ToggleLanguage | src/hooks/useLanguage.ts:22-28 | the language becomes the other one and is saved |
| HomePage.Lookup | src/app/page.tsx:54-61 | `get` finds a value exactly when the name was set |
| HomePage.Decimal | src/app/page.tsx:61 | `toString` of a page number is a non-empty string of digits |
| HomePage.ParseDecimal | src/app/api/articles/route.ts:10 | the definition of `parseInt` on a string of decimal digits (the round trip below) |
| HomePage.DecimalRoundTrip | src/app/page.tsx:61 | `parseInt` reads back the page number written |
| HomePage.ParamsFor | src/app/page.tsx:54-61 | the definition of the query string `fetchArticles` builds (its shape is `ParamsForShape`) |
| HomePage.FetchParams | src/app/page.tsx:52-61 | the `params.set` calls build the query string `ParamsFor` describes |
| HomePage.ParamsForShape | src/app/page.tsx:54-61 | country and brand are sent exactly when their lists are non-empty and carry the lists joined by ","; category unless "all"; `q` unless empty; the page always; nothing else |
| HomePage.RouteParams | src/app/api/articles/route.ts:6-12 | the definition of how the route reads the query string the page sends |
| HomePage.Wanted | src/app/page.tsx:43-61 | the definition of what the filters ask for, on the client's own state (the round trip below proves the route admits exactly these rows) |
| HomePage.FetchRoundTrip | src/app/page.tsx:52-64 | the articles route, reading the query string the page sent, admits exactly the rows the filters ask for, and reads the page back |
| HomePage.PrevPage | src/app/page.tsx:208 | one page back, never below 1 |
| HomePage.NextPage | src/app/page.tsx:218-219 | one page on, never past the last page |
| HomePage.PagingStaysInRange | src/app/page.tsx:208-219 | both buttons keep a page that is between 1 and the page count in that range |
| HomePage.ListingPage.constructor | src/app/page.tsx:40-50 | the first render has the initial filters and page 1 |
| HomePage.ListingPage.UpdateFilters | src/app/page.tsx:78-80 | a filter change resets the page to 1 |
| HomePage.ListingPage.ToggleCountry | src/app/page.tsx:45-80 | a country toggle updates the filters and resets the page |
| HomePage.ListingPage.ToggleBrand | src/app/page.tsx:46-80 | a brand toggle updates the filters and resets the page |
| HomePage.ListingPage.SetCategory | src/app/page.tsx:47-80 | a category change updates the filters and resets the page |
| HomePage.ListingPage.SetQuery | src/app/page.tsx:48-80 | a query change updates the filters and resets the page |
| HomePage.ListingPage.ClearFilters | src/app/page.tsx:49-80 | clearing restores the initial filters and resets the page |
| HomePage.ListingPage.Prev | src/app/page.tsx:208 | the previous-page button keeps the page within 1 and the page count |
| HomePage.ListingPage.Next | src/app/page.tsx:205-219 | the next-page button, shown with more than one page, never passes the page count |
| HomePage.ListingPage.Fetch | src/app/page.tsx:52-72 | the state's query string is `ParamsFor` of the current filters and page |

## Left out

- I/O is not modelled. Network requests, HTML parsing, database calls and the rate-limiting delays (`setTimeout`) are replaced by the parameters named above. Logging is left out.
- Concurrency is not modelled. `Promise.all` in the articles route and any overlap of React updates are taken as sequential.
- Text.Lower: `toLowerCase` is modelled as ASCII case folding only. Unicode case mapping is not modelled.
- Translate.IsJapanese: the source compares a floating-point ratio with 0.3. The model uses the equivalent integer comparison `10 * count > 3 * length`.
- Translate.JapaneseCount, Translate.Truncate, Scraper.AcceptedTitle and Scraper.ScrapeElementFields count `char`s. JavaScript's `length` counts UTF-16 code units, so text outside the Basic Multilingual Plane has different lengths. For example, a title of three emoji has length 6 in the source and passes its five-character check, but the model drops it.
- Translate.TranslateArticle: the service's result object is reduced to its text.
- Scraper.ScrapePage: CSS selector matching and cheerio's text extraction are not modelled. A page is given as the extracted texts and attributes of the elements each selector matches.
- Scraper.ResolveLink and Scraper.ResolveImage: `new URL(url).origin` is not computed. The origin is written out for each target. `Constants.ScrapeTargetsWellFormed` checks that the url continues with "/" right after it, and `Constants.ScrapeOriginsAreHosts` checks that it is "https://" and a host with no path.
- NewsApi.Normalise: `new Date(publishedAt)` is not parsed. A date is an abstract integer.
- Scraper.ToCandidate: every row of a scraping run is stamped with the one time `now`. The source evaluates `new Date()` at each upsert, with 2 seconds between targets, so its rows get distinct times that grow along the run. In the model they are ties, which `ArticlesApi.SortByDate` keeps in table order; the source orders them latest first.
- Store.Repository.Upsert: the only database failure modelled is a throw. A throw comes from the `faults` set and never writes. Prisma's unique-constraint races are not modelled.
- ArticlesApi.Get requires `page` and `limit` to be positive, so these inputs are not modelled:
  - a `page` that parses to `NaN`, 0 or a negative number: `skip` is `NaN` or negative, which Prisma rejects, and the route fails;
  - a `limit` that parses to `NaN`: `skip` and `take` are `NaN`, which Prisma rejects;
  - a negative `limit`: `take` is negative, which Prisma reads as taking rows backwards, and `skip` is negative past page 1;
  - a `limit` of 0: `skip` and `take` are 0, which is a valid query with an empty page, and `totalPages` is `Math.ceil(total / 0)`, that is `Infinity`, or `NaN` when `total` is 0, and either one is sent as `null`.
- ArticlesApi.SortByDate: rows with the same date keep their table order. The source leaves the order of equal dates to the database.
- ArticlesApi.Less: `orderBy` compares by code point. Database collations are not modelled.
- ArticlesApi.SearchHit: the model matches `contains` case-sensitively, as PostgreSQL's default collation does. On SQLite, `contains` ignores ASCII letter case, and that is not modelled.
- ArticlesApi.Get: the query string reaches the route already decoded. Percent-encoding is not modelled.
- HomePage.FetchParams: `URLSearchParams` is modelled as a map from names to values. The order of the parameters in the serialised string is not modelled, and neither is percent-encoding.
- HomePage.ListingPage.UpdateFilters: a filter change and the page reset are one step. In the source, the fetch effect first runs with the new filters and the old page, and when the page was not 1, the `setPage(1)` effect then causes a second fetch on page 1. The model keeps only the state both end in.
- HomePage.ListingPage: rendering is left out, and so are loading state, the mobile filter toggle and the `data` returned by the fetch.
- HomePage.ParseDecimal reads only strings of decimal digits, which is all the page sends. `parseInt` on other text, such as a hand-written `page=abc`, is not modelled.
- FavoritesHook.GetFavorites: `JSON.parse` is not modelled. Storage gives its result directly (missing, unparsable, or a list of ids). Stored JSON that parses to something other than an array is not modelled.
- The favourites hook's `storage` event listener, which reloads favourites changed in another tab, is left out.
- CronCollect.Get: the duration, the timestamp and the `maxDuration` setting are not modelled. An error's message is given as a string, so the `String(error)` conversion is not modelled.
- The maintenance scripts under `scripts/` and the UI components are not part of this model.

## Findings

| source | as written | input that shows it | evidently intended | confidence | as-written member | corrected member |
|---|---|---|---|---|---|---|
| src/app/api/cron/collect/route.ts:11 | the header is compared with `` `Bearer ${process.env.CRON_SECRET}` ``, and an unset secret turns into the text "undefined" | `CRON_SECRET` not set, header `Authorization: Bearer undefined`: the collectors run | with no secret configured, every request is rejected | not executed | CronCollect.UnsetSecretAdmitsLiteralUndefined | CronCollect.AuthorizedCorrected |
| src/lib/collectors/news-api.ts:143-146 | `totalCollected++` follows every upsert that does not throw, and the `catch` is commented "duplicate URL, skip"; with `update: {}` an upsert of a stored url does not throw, so it is counted (scraper.ts:125-128 is the same) | a run whose records are all stored already: nothing is added, and the counter is the number of records | an upsert of a stored url is skipped and not counted | not executed | Store.DuplicateUrlCounted | Store.IngestCreatedCountsNewRows |

`CronCollect.Get` and both collectors model the code as written: `Get` uses
`CronCollect.AuthorizedAsWritten`, and the collectors return the counter of
`Store.Ingest`. The corrected definitions sit beside them:
`CronCollect.Authorized` and `Store.IngestCreated`.
