/** The records the ingestion pipeline produces and the read side serves. */
module Domain {
  import opened Options

  /** The classification taxonomy; `Key` is the string stored in the `category` column. */
  datatype Category = Pad | Underwear | General {
    function Key(): string {
      match this
      case Pad => "pad"
      case Underwear => "underwear"
      case General => "general"
    }
  }

  /** Which collector produced an article; `Key` is the string stored in the `source` column. */
  datatype Source = NewsApi | Scraping {
    function Key(): string {
      match this
      case NewsApi => "newsapi"
      case Scraping => "scraping"
    }
  }

  /**
   * The `create` payload of one upsert: a normalised article that is not yet persisted.
   * `publishedAt` is an abstract timestamp (larger is later).
   */
  datatype Candidate = Candidate(
    title: string,
    summary: string,
    content: string,
    url: string,
    imageUrl: Option<string>,
    country: string,
    brand: Option<string>,
    company: Option<string>,
    category: Category,
    source: Source,
    publishedAt: int)

  /** A persisted row as the read-side query sees it, with its system-assigned id and translations. */
  datatype Article = Article(
    id: string,
    title: string,
    summary: string,
    content: string,
    url: string,
    imageUrl: Option<string>,
    country: string,
    brand: Option<string>,
    company: Option<string>,
    category: Category,
    source: Source,
    publishedAt: int,
    titleJa: Option<string>,
    summaryJa: Option<string>,
    contentJa: Option<string>)
}
