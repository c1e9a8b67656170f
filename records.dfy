/** The JSON documents the crawler exchanges with the Firecrawl service, reduced to the keys
    the code reads. A key that is absent is `None`. */
module Records {
  import opened Wrappers

  /** One scraped page: `metadata.url`, `metadata.title`, the top-level `url` and `markdown`. */
  datatype Page = Page(metaUrl: Option<string>, metaTitle: Option<string>,
                       url: Option<string>, markdown: Option<string>)

  /** The key under which a page is tracked: `metadata.url` when truthy, else the top-level
      `url` when present, else "unknown" (storage.py:167, api.py:552). */
  function PageKey(p: Page): (k: string)
    ensures Truthy(p.metaUrl) ==> k == p.metaUrl.value
    ensures !Truthy(p.metaUrl) && p.url.Some? ==> k == p.url.value
    ensures !Truthy(p.metaUrl) && p.url.None? ==> k == "unknown"
  {
    if Truthy(p.metaUrl) then p.metaUrl.value else p.url.GetOr("unknown")
  }

  /** The answer to a crawl-status request: `status`, `data` (absent reads as `[]`),
      `total`, `error`, and the job handles `id` / `jobId` when the server echoes them. */
  datatype StatusData = StatusData(status: Option<string>, data: seq<Page>, total: Option<int>,
                                   error: Option<string>, id: Option<string>, jobId: Option<string>)

  /** The answer to a crawl-start request: the job handle under `id` or `jobId`. */
  datatype StartBody = StartBody(id: Option<string>, jobId: Option<string>)

  /** The answer to a scrape request: whether `success` is truthy, the `data` page if present,
      and the whole document read as a page (used when `data` is absent). */
  datatype ScrapeBody = ScrapeBody(success: bool, data: Option<Page>, whole: Page)

  /** One entry of `sections_config.json`: the section's display name, start URL and output
      directory, and the crawl limits it fixes (`None` when left to auto-detection). */
  datatype SectionConfig = SectionConfig(name: string, url: string, outputDir: string,
                                         maxDepth: Option<int>, limit: Option<int>, timeout: Option<int>)

  /** `result.get("data", result)`: what the command-line tools hand to the store. */
  function ScrapedPage(b: ScrapeBody): (p: Page)
    ensures b.data.Some? ==> p == b.data.value
    ensures b.data.None? ==> p == b.whole
  {
    b.data.GetOr(b.whole)
  }
}

/** One HTTP exchange as the `requests` library reports it. Each request the code makes is
    one `Attempt`, taken from a script that stands for the network. */
module Http {
  import opened Wrappers

  /** What came back: a response (its status code and, when the body is valid JSON of the
      expected shape, the document), or one of the three request exceptions the code tells
      apart. A connect timeout counts as `ConnectionFailed`, as `requests` makes it a
      subclass of both and `ConnectionError` is always caught first. */
  datatype Transport<T> =
    | Response(code: int, body: Option<T>)
    | ConnectionFailed
    | TimedOut
    | RequestFailed

  /** One request and the seconds it took. */
  datatype Attempt<T> = Attempt(outcome: Transport<T>, elapsed: nat)

  /** `raise_for_status()` raises exactly for the 4xx and 5xx codes. */
  predicate IsHttpError(code: int) {
    400 <= code < 600
  }
}
