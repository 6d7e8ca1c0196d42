/** The static configuration tables the collectors and the UI read. */
module Constants {
  import opened Domain

  /** Country code to display name. */
  const COUNTRIES: map<string, string> := map[
    "JP" := "日本",
    "US" := "アメリカ",
    "GB" := "イギリス",
    "FR" := "フランス",
    "DE" := "ドイツ",
    "SE" := "スウェーデン",
    "IN" := "インド",
    "KR" := "韓国",
    "AU" := "オーストラリア",
    "CA" := "カナダ"]

  /** Country code to flag emoji. */
  const COUNTRY_FLAGS: map<string, string> := map[
    "JP" := "🇯🇵",
    "US" := "🇺🇸",
    "GB" := "🇬🇧",
    "FR" := "🇫🇷",
    "DE" := "🇩🇪",
    "SE" := "🇸🇪",
    "IN" := "🇮🇳",
    "KR" := "🇰🇷",
    "AU" := "🇦🇺",
    "CA" := "🇨🇦"]

  /** Category key to display name. */
  const CATEGORIES: map<string, string> := map[
    "pad" := "ナプキン・パッド",
    "underwear" := "吸水ショーツ",
    "general" := "総合"]

  /** The search keywords, in order; the news collector only uses the first three. */
  const SEARCH_KEYWORDS: seq<string> := [
    "menstrual pad",
    "sanitary pad",
    "period underwear",
    "period panties",
    "menstrual products",
    "sanitary napkin",
    "feminine hygiene",
    "生理用品",
    "ナプキン",
    "吸水ショーツ"]

  /**
   * One brand site to scrape. `origin` is the scheme and host of `url`
   * (what `new URL(url).origin` gives), written out per target.
   */
  datatype ScrapeTarget = ScrapeTarget(
    name: string,
    url: string,
    origin: string,
    company: string,
    brand: string,
    country: string)

  const SCRAPE_TARGETS: seq<ScrapeTarget> := [
    ScrapeTarget("花王 ロリエ", "https://www.kao.co.jp/laurier/", "https://www.kao.co.jp", "花王", "ロリエ", "JP"),
    ScrapeTarget("ユニ・チャーム ソフィ", "https://www.unicharm.co.jp/ja/brands/sofy.html", "https://www.unicharm.co.jp",
                 "ユニ・チャーム", "ソフィ", "JP"),
    ScrapeTarget("P&G Always", "https://always.com/", "https://always.com", "P&G", "Always", "US"),
    ScrapeTarget("Thinx", "https://www.thinx.com/", "https://www.thinx.com", "Thinx Inc.", "Thinx", "US"),
    ScrapeTarget("Modibodi", "https://www.modibodi.com/", "https://www.modibodi.com", "Modibodi", "Modibodi", "AU")]

  /** The category table has exactly one entry per classification outcome. */
  lemma CategoriesCoverTaxonomy()
    ensures forall c: Category :: c.Key() in CATEGORIES
    ensures forall k :: k in CATEGORIES ==> exists c: Category :: c.Key() == k
  {
    assert Pad.Key() == "pad" && Underwear.Key() == "underwear" && General.Key() == "general";
  }

  /** The name and flag tables describe the same ten countries. */
  lemma CountryTablesAgree()
    ensures COUNTRIES.Keys == COUNTRY_FLAGS.Keys == {"JP", "US", "GB", "FR", "DE", "SE", "IN", "KR", "AU", "CA"}
  {
  }

  /** `https://` followed by a non-empty host with no further "/": the shape of a `URL`'s `origin`. */
  predicate SchemeAndHost(origin: string) {
    |origin| > 8 && origin[..8] == "https://" && forall i :: 8 <= i < |origin| ==> origin[i] != '/'
  }

  /** Every scrape target's country is a known country, and its url continues with "/" right after its origin. */
  lemma ScrapeTargetsWellFormed()
    ensures forall t :: t in SCRAPE_TARGETS ==> t.country in COUNTRIES
    ensures forall t :: t in SCRAPE_TARGETS ==>
      |t.origin| < |t.url| && t.url[..|t.origin|] == t.origin && t.url[|t.origin|] == '/'
  {
  }

  /** Every written origin is "https://" and a host, with no path. */
  lemma ScrapeOriginsAreHosts()
    ensures forall t :: t in SCRAPE_TARGETS ==> SchemeAndHost(t.origin)
  {
    WrittenOrigins();
  }

  /** The five origins of the table, one by one. */
  lemma WrittenOrigins()
    ensures SchemeAndHost("https://www.kao.co.jp")
    ensures SchemeAndHost("https://www.unicharm.co.jp")
    ensures SchemeAndHost("https://always.com")
    ensures SchemeAndHost("https://www.thinx.com")
    ensures SchemeAndHost("https://www.modibodi.com")
  {
  }
}
