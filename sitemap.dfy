/** Change detection against a site's XML sitemap (firecrawl_crawler/sitemap.py): the
    sitemap's address, the filters over its entries, and the list of pages that need to be
    scraped again. The sitemap arrives already fetched and parsed into entries. */
module Sitemap {
  import opened Wrappers
  import opened Strings
  import opened Seqs
  import opened Storage

  /** One `<url>` element of the sitemap: its `loc` and, when present, its `lastmod`. */
  datatype SitemapEntry = SitemapEntry(url: string, lastmod: Option<string>)

  function EntryUrl(e: SitemapEntry): string {
    e.url
  }

  /** A timestamp as `datetime.fromisoformat` reads it: a point on the time line and whether
      it carries a UTC offset. */
  datatype DateTime = DateTime(instant: int, aware: bool)

  /** `datetime.fromisoformat`: `None` where it raises ValueError. */
  type Parser = string -> Option<DateTime>

  /** `a > b` on datetimes; `None` where Python raises TypeError because one of the two is
      naive and the other aware. */
  function After(a: DateTime, b: DateTime): (r: Option<bool>)
    ensures r.None? <==> a.aware != b.aware
    ensures r.Some? ==> (r.value <==> a.instant > b.instant)
  {
    if a.aware != b.aware then None else Some(a.instant > b.instant)
  }

  /** `lastmod.replace('Z', '+00:00')`, which makes a UTC stamp readable. */
  function Normalised(lastmod: string): string {
    ReplaceAll(lastmod, 'Z', "+00:00")
  }

  /** `SitemapParser(base_url).sitemap_url`: the base URL without trailing slashes, then
      "/sitemap.xml". */
  function SitemapUrl(baseUrl: string): (u: string)
    ensures EndsWith(u, "/sitemap.xml") && |u| >= 12
    ensures var b := u[..|u| - 12];
      StartsWith(baseUrl, b) && (b == [] || b[|b| - 1] != '/')
        && forall i :: |b| <= i < |baseUrl| ==> baseUrl[i] == '/'
  {
    var b := RStrip(baseUrl, '/');
    var u := b + "/sitemap.xml";
    assert u[..|u| - 12] == b;
    u
  }

  /** Trailing slashes on the base URL make no difference. */
  lemma SitemapUrlIgnoresTrailingSlash(baseUrl: string)
    ensures SitemapUrl(baseUrl + "/") == SitemapUrl(baseUrl)
  {
    assert (baseUrl + "/")[..|baseUrl|] == baseUrl;
  }

  /** Whether an entry's URL contains the filter, `path_filter in u['url']`. */
  function ContainsFilter(pathFilter: string): SitemapEntry -> bool {
    (u: SitemapEntry) => Contains(u.url, pathFilter)
  }

  /** The path step of `filter_urls`: with a truthy filter, the entries whose URL contains
      it; otherwise all of them. */
  function PathStep(urls: seq<SitemapEntry>, pathFilter: Option<string>): seq<SitemapEntry> {
    if Truthy(pathFilter) then Filter(urls, ContainsFilter(pathFilter.value)) else urls
  }

  /** Whether the date step of `filter_urls` keeps an entry: one without a truthy `lastmod`,
      one whose `lastmod` does not parse or cannot be compared, and otherwise one modified
      strictly after the cut-off. */
  function KeepSince(u: SitemapEntry, after: DateTime, parse: Parser): bool {
    if !Truthy(u.lastmod) then true
    else match parse(Normalised(u.lastmod.value))
      case None => true
      case Some(t) => After(t, after).GetOr(true)
  }

  function KeepSinceFn(after: DateTime, parse: Parser): SitemapEntry -> bool {
    (u: SitemapEntry) => KeepSince(u, after, parse)
  }

  /** The date step of `filter_urls`. */
  function DateStep(urls: seq<SitemapEntry>, after: DateTime, parse: Parser): seq<SitemapEntry> {
    Filter(urls, KeepSinceFn(after, parse))
  }

  /** What `filter_urls(urls, path_filter, modified_after)` returns. */
  function FilteredUrls(urls: seq<SitemapEntry>, pathFilter: Option<string>, modifiedAfter: Option<DateTime>,
                        parse: Parser): seq<SitemapEntry> {
    var filtered := PathStep(urls, pathFilter);
    if modifiedAfter.Some? then DateStep(filtered, modifiedAfter.value, parse) else filtered
  }

  lemma DateStepSnoc(s: seq<SitemapEntry>, u: SitemapEntry, after: DateTime, parse: Parser)
    ensures DateStep(s + [u], after, parse) == DateStep(s, after, parse) + if KeepSince(u, after, parse) then [u] else []
  {
    FilterAppend(s, [u], KeepSinceFn(after, parse));
    assert [u][1..] == [];
  }

  /** `filter_urls` keeps, in their order, exactly the entries whose URL contains a truthy
      path filter and, when a cut-off is given, that have no `lastmod`, one that does not
      parse or cannot be compared with the cut-off, or one strictly later than it. */
  lemma FilterUrlsKeeps(urls: seq<SitemapEntry>, pathFilter: Option<string>, modifiedAfter: Option<DateTime>, parse: Parser)
    ensures IsSubsequence(FilteredUrls(urls, pathFilter, modifiedAfter, parse), urls)
    ensures forall e :: e in FilteredUrls(urls, pathFilter, modifiedAfter, parse) <==>
      e in urls
        && (Truthy(pathFilter) ==> OccursIn(pathFilter.value, e.url))
        && (modifiedAfter.Some? ==>
              !Truthy(e.lastmod)
              || parse(Normalised(e.lastmod.value)).None?
              || parse(Normalised(e.lastmod.value)).value.aware != modifiedAfter.value.aware
              || parse(Normalised(e.lastmod.value)).value.instant > modifiedAfter.value.instant)
  {
    var step := PathStep(urls, pathFilter);
    if Truthy(pathFilter) {
      FilterIsSubsequence(urls, ContainsFilter(pathFilter.value));
      forall e | e in urls {
        ContainsIsOccurs(e.url, pathFilter.value);
      }
    } else {
      SubsequenceOfSelf(urls);
    }
    if modifiedAfter.Some? {
      FilterIsSubsequence(step, KeepSinceFn(modifiedAfter.value, parse));
      SubsequenceTransitive(DateStep(step, modifiedAfter.value, parse), step, urls);
    }
  }

  /** `filter_urls(urls, path_filter, modified_after)` */
  method FilterUrls(urls: seq<SitemapEntry>, pathFilter: Option<string>, modifiedAfter: Option<DateTime>,
                    parse: Parser) returns (filtered: seq<SitemapEntry>)
    ensures filtered == FilteredUrls(urls, pathFilter, modifiedAfter, parse)
  {
    filtered := PathStep(urls, pathFilter);
    if modifiedAfter.Some? {
      var after := modifiedAfter.value;
      var result: seq<SitemapEntry> := [];
      var i := 0;
      while i < |filtered|
        invariant 0 <= i <= |filtered|
        invariant result == DateStep(filtered[..i], after, parse)
      {
        var u := filtered[i];
        DateStepSnoc(filtered[..i], u, after, parse);
        assert filtered[..i + 1] == filtered[..i] + [u];
        if Truthy(u.lastmod) {
          match parse(Normalised(u.lastmod.value)) {
            case None =>
              result := result + [u];
            case Some(lastmod) =>
              var later := After(lastmod, after);
              if later.None? || later.value {
                result := result + [u];
              }
          }
        } else {
          result := result + [u];
        }
        i := i + 1;
      }
      assert filtered[..|filtered|] == filtered;
      filtered := result;
    }
  }

  /** Whether `get_updated_urls` lists entry `e`: it must pass the path filter; a URL never
      scraped is listed; a scraped one is listed when both its scrape time and the entry's
      `lastmod` are truthy and the page changed after the scrape, or when reading or
      comparing the two times raises. */
  function Include(e: SitemapEntry, scraped: Assoc<string, PageEntry>, pathFilter: Option<string>, parse: Parser): bool {
    if Truthy(pathFilter) && !Contains(e.url, pathFilter.value) then false
    else match Get(scraped, e.url)
      case None => true
      case Some(info) =>
        if Truthy(info.scrapedAt) && Truthy(e.lastmod) then
          match (parse(info.scrapedAt.value), parse(Normalised(e.lastmod.value)))
          case (Some(scrapedTime), Some(modifiedTime)) => After(modifiedTime, scrapedTime).GetOr(true)
          case _ => true
        else false
  }

  function IncludeFn(scraped: Assoc<string, PageEntry>, pathFilter: Option<string>, parse: Parser): SitemapEntry -> bool {
    (e: SitemapEntry) => Include(e, scraped, pathFilter, parse)
  }

  /** What `get_updated_urls(scraped_urls, path_filter)` returns for the sitemap `entries`. */
  function UpdatedUrls(entries: seq<SitemapEntry>, scraped: Assoc<string, PageEntry>, pathFilter: Option<string>,
                       parse: Parser): seq<string> {
    Map(Filter(entries, IncludeFn(scraped, pathFilter, parse)), EntryUrl)
  }

  lemma UpdatedUrlsSnoc(s: seq<SitemapEntry>, e: SitemapEntry, scraped: Assoc<string, PageEntry>, pathFilter: Option<string>, parse: Parser)
    ensures UpdatedUrls(s + [e], scraped, pathFilter, parse)
      == UpdatedUrls(s, scraped, pathFilter, parse) + if Include(e, scraped, pathFilter, parse) then [e.url] else []
  {
    var keep := IncludeFn(scraped, pathFilter, parse);
    FilterAppend(s, [e], keep);
    assert [e][1..] == [];
    MapAppend(Filter(s, keep), Filter([e], keep), EntryUrl);
  }

  /** `get_updated_urls(scraped_urls, path_filter)` over the sitemap's `entries`. */
  method GetUpdatedUrls(entries: seq<SitemapEntry>, scraped: Assoc<string, PageEntry>, pathFilter: Option<string>,
                        parse: Parser) returns (updated: seq<string>)
    ensures updated == UpdatedUrls(entries, scraped, pathFilter, parse)
  {
    updated := [];
    assert entries[..0] == [];
    assert updated == UpdatedUrls(entries[..0], scraped, pathFilter, parse);
    hide UpdatedUrls, Contains, Normalised, After, Get;
    var i := 0;
    while i < |entries|
      invariant 0 <= i <= |entries|
      invariant updated == UpdatedUrls(entries[..i], scraped, pathFilter, parse)
    {
      var entry := entries[i];
      UpdatedUrlsSnoc(entries[..i], entry, scraped, pathFilter, parse);
      assert entries[..i + 1] == entries[..i] + [entry];
      var url := entry.url;
      i := i + 1;
      if Truthy(pathFilter) && !Contains(url, pathFilter.value) {
        continue;
      }
      var info := Get(scraped, url);
      if info.Some? {
        var scrapedAt := info.value.scrapedAt;
        var lastmod := entry.lastmod;
        if Truthy(scrapedAt) && Truthy(lastmod) {
          var scrapedTime := parse(scrapedAt.value);
          var modifiedTime := parse(Normalised(lastmod.value));
          if scrapedTime.None? || modifiedTime.None? {
            updated := updated + [url];
          } else {
            var later := After(modifiedTime.value, scrapedTime.value);
            if later.None? || later.value {
              updated := updated + [url];
            }
          }
        }
      } else {
        updated := updated + [url];
      }
    }
    assert entries[..|entries|] == entries;
  }

  /** The updated URLs are the sitemap's URLs with some left out, in sitemap order, one per
      listed entry; each contains a truthy path filter; a URL not scraped before that passes
      the filter is always listed. */
  lemma UpdatedUrlsShape(entries: seq<SitemapEntry>, scraped: Assoc<string, PageEntry>, pathFilter: Option<string>, parse: Parser)
    ensures var r := UpdatedUrls(entries, scraped, pathFilter, parse);
      IsSubsequence(r, Map(entries, EntryUrl))
    ensures var r := UpdatedUrls(entries, scraped, pathFilter, parse);
      forall u :: u in r ==> Truthy(pathFilter) ==> OccursIn(pathFilter.value, u)
    ensures var r := UpdatedUrls(entries, scraped, pathFilter, parse);
      forall e :: e in entries && Get(scraped, e.url).None? && (Truthy(pathFilter) ==> OccursIn(pathFilter.value, e.url))
        ==> e.url in r
  {
    var keep := IncludeFn(scraped, pathFilter, parse);
    var kept := Filter(entries, keep);
    var r := Map(kept, EntryUrl);
    FilterIsSubsequence(entries, keep);
    MapSubsequence(kept, entries, EntryUrl);
    forall u | u in r && Truthy(pathFilter) ensures OccursIn(pathFilter.value, u) {
      var i :| 0 <= i < |r| && r[i] == u;
      assert kept[i] in kept;
      ContainsIsOccurs(u, pathFilter.value);
    }
    forall e | e in entries && Get(scraped, e.url).None? && (Truthy(pathFilter) ==> OccursIn(pathFilter.value, e.url))
      ensures e.url in r
    {
      if Truthy(pathFilter) {
        ContainsIsOccurs(e.url, pathFilter.value);
      }
      assert e in kept;
      var i :| 0 <= i < |kept| && kept[i] == e;
      assert r[i] == e.url;
    }
  }

  /** For a URL scraped before that passes the filter: when its scrape time or the entry's
      `lastmod` is missing or empty it is left out; when both parse and are comparable it is
      listed exactly when the page changed strictly after the scrape; otherwise (a time does
      not parse, or a naive scrape time meets a UTC `lastmod`) it is listed. */
  lemma KnownUrlRule(e: SitemapEntry, scraped: Assoc<string, PageEntry>, pathFilter: Option<string>, parse: Parser)
    requires Get(scraped, e.url).Some?
    requires Truthy(pathFilter) ==> OccursIn(pathFilter.value, e.url)
    ensures var info := Get(scraped, e.url).value;
      !(Truthy(info.scrapedAt) && Truthy(e.lastmod)) ==> !Include(e, scraped, pathFilter, parse)
    ensures var info := Get(scraped, e.url).value;
      Truthy(info.scrapedAt) && Truthy(e.lastmod)
        && parse(info.scrapedAt.value).Some? && parse(Normalised(e.lastmod.value)).Some?
        && parse(info.scrapedAt.value).value.aware == parse(Normalised(e.lastmod.value)).value.aware
      ==> (Include(e, scraped, pathFilter, parse)
           <==> parse(Normalised(e.lastmod.value)).value.instant > parse(info.scrapedAt.value).value.instant)
    ensures var info := Get(scraped, e.url).value;
      Truthy(info.scrapedAt) && Truthy(e.lastmod)
        && (parse(info.scrapedAt.value).None? || parse(Normalised(e.lastmod.value)).None?
            || parse(info.scrapedAt.value).value.aware != parse(Normalised(e.lastmod.value)).value.aware)
      ==> Include(e, scraped, pathFilter, parse)
  {
    if Truthy(pathFilter) {
      ContainsIsOccurs(e.url, pathFilter.value);
    }
  }
}
